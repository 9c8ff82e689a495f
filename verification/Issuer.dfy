/** The signing-key lifecycle. A key's state is never stored: where the clock stands against its
    timestamps is the state. Rows of the `signing_key` table are kept in insertion order. */
module Issuer {
  import opened Prelude

  datatype Key = Key(
    kid: string,
    createdAt: Timestamp,
    activateAt: Timestamp,
    retireAt: Option<Timestamp>,
    removedAt: Option<Timestamp>,
    usable: bool)   // the seed opens and matches the public key

  datatype KeyPolicy = KeyPolicy(publishLeadSecs: nat, maxTtlSecs: nat)

  /** The clock allowance verifiers apply to `exp`. */
  const RETIRE_MARGIN_SECS: nat := 300

  predicate Published(k: Key, now: Timestamp) {
    k.removedAt.None? && (k.retireAt.None? || k.retireAt.value > now)
  }

  predicate Eligible(k: Key, now: Timestamp) {
    k.activateAt <= now && Published(k, now) && k.usable
  }

  // ---------------------------------------------------------------------------------------
  // The table
  // ---------------------------------------------------------------------------------------

  /** `retire_at` pulled in to `at` where it is open or later. Removed rows are left alone. */
  function Dated(k: Key, at: Timestamp): Key {
    if k.removedAt.None? && (k.retireAt.None? || k.retireAt.value > at) then k.(retireAt := Some(at)) else k
  }

  function Lead(policy: KeyPolicy, activateInSecs: Option<nat>): nat {
    match activateInSecs
    case Some(secs) => secs
    case None => policy.publishLeadSecs
  }

  function RetireDate(policy: KeyPolicy, now: Timestamp, lead: nat): Timestamp {
    if lead == 0 then now else now + lead + (policy.maxTtlSecs + RETIRE_MARGIN_SECS)
  }

  /** First update: every row not removed stops being published no later than `at`. */
  function DateAll(rows: seq<Key>, at: Timestamp): (dated: seq<Key>)
    ensures |dated| == |rows| && forall i :: 0 <= i < |rows| ==> dated[i] == Dated(rows[i], at)
  {
    seq(|rows|, i requires 0 <= i < |rows| => Dated(rows[i], at))
  }

  /** Second update: a row due to activate after `activateAt` stops being published now. */
  function CutPending(rows: seq<Key>, activateAt: Timestamp, now: Timestamp): (cut: seq<Key>)
    ensures |cut| == |rows|
    ensures forall i :: 0 <= i < |rows| ==>
              cut[i] == if rows[i].activateAt > activateAt then Dated(rows[i], now) else rows[i]
  {
    seq(|rows|, i requires 0 <= i < |rows| =>
      if rows[i].activateAt > activateAt then Dated(rows[i], now) else rows[i])
  }

  function NewKey(kid: string, now: Timestamp, activateAt: Timestamp): Key {
    Key(kid, now, activateAt, None, None, true)
  }

  function Rotated(policy: KeyPolicy, rows: seq<Key>, kid: string, now: Timestamp, lead: nat): seq<Key> {
    CutPending(DateAll(rows, RetireDate(policy, now, lead)), now + lead, now) + [NewKey(kid, now, now + lead)]
  }

  lemma RotatedGrows(policy: KeyPolicy, rows: seq<Key>, kid: string, now: Timestamp, lead: nat)
    ensures var rows' := Rotated(policy, rows, kid, now, lead);
            |rows'| == |rows| + 1 && rows'[|rows|] == Key(kid, now, now + lead, None, None, true)
  {
  }

  predicate Due(k: Key, now: Timestamp) {
    k.removedAt.None? && k.retireAt.Some? && k.retireAt.value <= now
  }

  function Removed(k: Key, now: Timestamp): Key {
    if Due(k, now) then k.(removedAt := Some(now)) else k
  }

  function Pruned(rows: seq<Key>, now: Timestamp): seq<Key> {
    seq(|rows|, i requires 0 <= i < |rows| => Removed(rows[i], now))
  }

  // ---------------------------------------------------------------------------------------
  // The cache
  // ---------------------------------------------------------------------------------------

  /** `ORDER BY activate_at DESC, created_at DESC`. */
  predicate Before(a: Key, b: Key) {
    a.activateAt > b.activateAt || (a.activateAt == b.activateAt && a.createdAt > b.createdAt)
  }

  /** A row inserted after every row in `keys` goes ahead of those it ties with. */
  function InsertNewest(keys: seq<Key>, k: Key): seq<Key> {
    if keys == [] then [k]
    else if Before(keys[0], k) then [keys[0]] + InsertNewest(keys[1..], k)
    else [k] + keys
  }

  /** Every row not yet removed, newest first. */
  function Load(rows: seq<Key>): seq<Key> {
    if rows == [] then []
    else
      var k := rows[|rows| - 1];
      var rest := Load(rows[..|rows| - 1]);
      if k.removedAt.None? then InsertNewest(rest, k) else rest
  }

  /** The key that signs at `now`: the first usable one in the cache that has activated and is
      still published. */
  function Signing(cache: seq<Key>, now: Timestamp): Option<Key> {
    if cache == [] then None
    else if Eligible(cache[0], now) then Some(cache[0])
    else Signing(cache[1..], now)
  }

  /** The published keys in cache order: the JWK Set. */
  function Jwks(cache: seq<Key>, now: Timestamp): seq<Key> {
    if cache == [] then []
    else (if Published(cache[0], now) then [cache[0]] else []) + Jwks(cache[1..], now)
  }

  datatype Rotation = Rotation(kid: string, activateAt: Timestamp, previousRetireAt: Timestamp, immediate: bool)

  /** How many rows are due for removal. */
  function DueCount(rows: seq<Key>, now: Timestamp): nat {
    if rows == [] then 0 else DueCount(rows[..|rows| - 1], now) + if Due(rows[|rows| - 1], now) then 1 else 0
  }

  lemma {:induction false} NoneDue(rows: seq<Key>, now: Timestamp)
    requires DueCount(rows, now) == 0
    ensures forall i :: 0 <= i < |rows| ==> !Due(rows[i], now)
  {
    if rows != [] {
      NoneDue(rows[..|rows| - 1], now);
    }
  }

  class Issuer {
    const policy: KeyPolicy
    /** The `signing_key` table. */
    var rows: seq<Key>
    /** The in-memory view of it. */
    var cache: seq<Key>

    ghost predicate Valid()
      reads this
    {
      cache == Load(rows)
    }

    /** Open the store, creating the first key if it holds none. */
    constructor (policy: KeyPolicy, stored: seq<Key>, kid: string, now: Timestamp)
      ensures Valid() && this.policy == policy
      ensures rows == if stored == [] then [NewKey(kid, now, now)] else stored
    {
      this.policy := policy;
      rows := if stored == [] then [NewKey(kid, now, now)] else stored;
      new;
      cache := Load(rows);
    }

    /** The store's half of a rotation: date the live keys, cut those still pending, add the new one. */
    method Insert(retireAt: Timestamp, activateAt: Timestamp, kid: string, now: Timestamp) returns (after: seq<Key>)
      ensures after == CutPending(DateAll(rows, retireAt), activateAt, now) + [NewKey(kid, now, activateAt)]
    {
      var dated := DateAll(rows, retireAt);
      var cut := CutPending(dated, activateAt, now);
      after := cut + [NewKey(kid, now, activateAt)];
    }

    method Rotate(activateInSecs: Option<nat>, kid: string, now: Timestamp) returns (rotation: Rotation)
      requires Valid()
      modifies this
      ensures Valid()
      ensures rows == Rotated(policy, old(rows), kid, now, Lead(policy, activateInSecs))
      ensures rotation.kid == kid
      ensures activateInSecs.None? ==> rotation.activateAt == now + policy.publishLeadSecs
      ensures activateInSecs.Some? ==> rotation.activateAt == now + activateInSecs.value
      ensures rotation.immediate <==> rotation.activateAt == now
      ensures rotation.previousRetireAt
           == if rotation.immediate then now else rotation.activateAt + policy.maxTtlSecs + 300
      ensures |rows| == |old(rows)| + 1
      ensures rows[|rows| - 1] == Key(kid, now, rotation.activateAt, None, None, true)
    {
      var lead := Lead(policy, activateInSecs);
      var immediate := lead == 0;
      var activateAt := now + lead;
      var retireAt := if immediate then now else activateAt + (policy.maxTtlSecs + RETIRE_MARGIN_SECS);
      rotation := Rotation(kid, activateAt, retireAt, immediate);
      assert retireAt == RetireDate(policy, now, lead);
      RotatedGrows(policy, rows, kid, now, lead);
      var after := Insert(retireAt, activateAt, kid, now);
      assert after == Rotated(policy, rows, kid, now, lead);
      rows, cache := after, Load(after);
    }

    /** Mark every key past its `retire_at` removed, one write per key due. */
    method PruneRetired(now: Timestamp) returns (removed: nat)
      requires Valid()
      modifies this
      ensures Valid()
      ensures rows == Pruned(old(rows), now)
      ensures removed == DueCount(old(rows), now)
      ensures |rows| == |old(rows)| && forall i :: 0 <= i < |rows| ==>
                rows[i].removedAt == if old(rows)[i].removedAt.None? && old(rows)[i].retireAt.Some?
                                        && old(rows)[i].retireAt.value <= now
                                     then Some(now) else old(rows)[i].removedAt
    {
      var before := rows;
      removed := 0;
      for i := 0 to |before|
        invariant |rows| == |before| && cache == old(cache)
        invariant forall k :: 0 <= k < |before| ==> rows[k] == if k < i then Removed(before[k], now) else before[k]
        invariant removed == DueCount(before[..i], now)
      {
        assert before[..i + 1][..i] == before[..i];
        if Due(before[i], now) {
          rows := rows[i := before[i].(removedAt := Some(now))];
          removed := removed + 1;
        }
      }
      assert before[..|before|] == before;
      if removed > 0 {
        cache := Load(rows);
      } else {
        NoneDue(before, now);
        assert rows == before;
      }
    }

    method SignWithKid(now: Timestamp) returns (kid: Option<string>)
      requires Valid()
      ensures match Signing(Load(rows), now) case Some(k) => kid == Some(k.kid) case None => kid == None
    {
      var i := 0;
      while i < |cache| && !Eligible(cache[i], now)
        invariant i <= |cache|
        invariant Signing(cache, now) == Signing(cache[i..], now)
      {
        i := i + 1;
      }
      kid := if i < |cache| then Some(cache[i].kid) else None;
    }
  }

  // ---------------------------------------------------------------------------------------
  // The cache answers for the table
  // ---------------------------------------------------------------------------------------

  /** The index of the newest eligible row: last in the order, later insertion breaking ties. */
  function Newest(rows: seq<Key>, now: Timestamp): (at: Option<nat>)
    ensures at.Some? ==> at.value < |rows| && Eligible(rows[at.value], now)
  {
    if rows == [] then None
    else
      var last := |rows| - 1;
      var rest := Newest(rows[..last], now);
      if Eligible(rows[last], now) && (rest.None? || !Before(rows[rest.value], rows[last])) then Some(last)
      else rest
  }

  predicate Descending(keys: seq<Key>) {
    forall i, j :: 0 <= i < j < |keys| ==> !Before(keys[j], keys[i])
  }

  lemma {:induction false} InsertKeepsOrder(keys: seq<Key>, k: Key)
    requires Descending(keys)
    ensures Descending(InsertNewest(keys, k))
    ensures |InsertNewest(keys, k)| == |keys| + 1
    ensures forall x :: x in InsertNewest(keys, k) <==> x in keys || x == k
  {
    if keys != [] && Before(keys[0], k) {
      InsertKeepsOrder(keys[1..], k);
      var rest := InsertNewest(keys[1..], k);
      forall j | 0 <= j < |rest| ensures !Before(rest[j], keys[0]) {
        assert rest[j] in rest;
      }
    }
  }

  lemma {:induction false} LoadIsOrdered(rows: seq<Key>)
    ensures Descending(Load(rows))
    ensures forall k :: k in Load(rows) <==> k in rows && k.removedAt.None?
  {
    if rows != [] {
      var last, rest := rows[|rows| - 1], rows[..|rows| - 1];
      LoadIsOrdered(rest);
      assert rows == rest + [last];
      if last.removedAt.None? {
        InsertKeepsOrder(Load(rest), last);
      }
    }
  }

  lemma {:induction false} InsertSigns(keys: seq<Key>, k: Key, now: Timestamp)
    requires Descending(keys)
    ensures var s := Signing(keys, now);
            Signing(InsertNewest(keys, k), now)
            == if Eligible(k, now) && (s.None? || !Before(s.value, k)) then Some(k) else s
  {
    if keys != [] {
      var whole := InsertNewest(keys, k);
      if Before(keys[0], k) {
        assert whole[1..] == InsertNewest(keys[1..], k);
        InsertSigns(keys[1..], k, now);
      } else {
        assert whole[1..] == keys;
        SignerIsIn(keys, now);
        if Signing(keys, now).Some? {
          var j :| 0 <= j < |keys| && keys[j] == Signing(keys, now).value;
          assert !Before(keys[j], k) by { assert j == 0 || !Before(keys[j], keys[0]); }
        }
      }
    }
  }

  lemma {:induction false} SignerIsIn(keys: seq<Key>, now: Timestamp)
    ensures Signing(keys, now).Some? ==> Signing(keys, now).value in keys && Eligible(Signing(keys, now).value, now)
  {
    if keys != [] && !Eligible(keys[0], now) {
      SignerIsIn(keys[1..], now);
    }
  }

  /** The cached list signs with the newest eligible row of the table. */
  lemma {:induction false} CacheSignsNewest(rows: seq<Key>, now: Timestamp)
    ensures var at := Newest(rows, now);
            Signing(Load(rows), now) == if at.Some? then Some(rows[at.value]) else None
  {
    if rows != [] {
      var last := |rows| - 1;
      CacheSignsNewest(rows[..last], now);
      LoadIsOrdered(rows[..last]);
      if rows[last].removedAt.None? {
        InsertSigns(Load(rows[..last]), rows[last], now);
      }
    }
  }

  /** No eligible row is newer than the one that signs. */
  lemma {:induction false} NewestIsNewest(rows: seq<Key>, now: Timestamp, j: nat)
    requires j < |rows| && Eligible(rows[j], now)
    ensures Newest(rows, now).Some?
    ensures var i := Newest(rows, now).value;
            !Before(rows[j], rows[i]) && (Before(rows[i], rows[j]) || j <= i)
  {
    var last := |rows| - 1;
    if j < last {
      NewestIsNewest(rows[..last], now, j);
    } else {
      NewestOfPrefix(rows, now);
    }
  }

  lemma NewestOfPrefix(rows: seq<Key>, now: Timestamp)
    requires rows != [] && Eligible(rows[|rows| - 1], now)
    ensures Newest(rows, now).Some?
    ensures var i := Newest(rows, now).value;
            i == |rows| - 1 || Before(rows[i], rows[|rows| - 1])
  {
  }

  /** A row may sign: its seed opens, it has activated, and it is neither removed nor past its end. */
  predicate MaySign(k: Key, now: Timestamp) {
    k.usable && k.activateAt <= now && k.removedAt.None? && (k.retireAt.None? || now < k.retireAt.value)
  }

  /** Who signs: a row that may, with no row that may activated after it, nor made after it and activated
      with it; nobody exactly if none may. */
  lemma SignerIsExact(rows: seq<Key>, now: Timestamp)
    ensures Signing(Load(rows), now).None? <==> forall k :: k in rows ==> !MaySign(k, now)
    ensures Signing(Load(rows), now).Some? ==>
              var signer := Signing(Load(rows), now).value;
              && signer in rows && MaySign(signer, now)
              && forall k :: k in rows && MaySign(k, now) ==>
                   && k.activateAt <= signer.activateAt
                   && (k.activateAt == signer.activateAt ==> k.createdAt <= signer.createdAt)
  {
    CacheSignsNewest(rows, now);
    forall k | k in rows && MaySign(k, now)
      ensures Newest(rows, now).Some? && !Before(k, rows[Newest(rows, now).value])
    {
      var j: nat :| j < |rows| && rows[j] == k;
      NewestIsNewest(rows, now, j);
    }
    if Newest(rows, now).Some? {
      assert rows[Newest(rows, now).value] in rows && MaySign(rows[Newest(rows, now).value], now);
    }
  }

  /** The JWK Set is exactly the published rows. */
  lemma JwksIsPublished(rows: seq<Key>, now: Timestamp)
    ensures Descending(Jwks(Load(rows), now))
    ensures forall k :: k in Jwks(Load(rows), now) <==> k in rows && Published(k, now)
  {
    LoadIsOrdered(rows);
    JwksFilters(Load(rows), now);
  }

  lemma {:induction false} JwksFilters(keys: seq<Key>, now: Timestamp)
    requires Descending(keys)
    ensures Descending(Jwks(keys, now))
    ensures forall k :: k in Jwks(keys, now) <==> k in keys && Published(k, now)
  {
    if keys != [] {
      JwksFilters(keys[1..], now);
      var rest := Jwks(keys[1..], now);
      forall j | 0 <= j < |rest| ensures !Before(rest[j], keys[0]) {
        assert rest[j] in keys[1..];
      }
    }
  }

  // ---------------------------------------------------------------------------------------
  // Runs
  // ---------------------------------------------------------------------------------------

  /** What callers ask for. A rotation that asks for no lead gets the policy's. */
  datatype Op = Rotate(now: Timestamp, activateIn: Option<nat>, kid: string) | Prune(now: Timestamp)

  function Apply(policy: KeyPolicy, rows: seq<Key>, op: Op): seq<Key> {
    match op
    case Rotate(now, activateIn, kid) => Rotated(policy, rows, kid, now, Lead(policy, activateIn))
    case Prune(now) => Pruned(rows, now)
  }

  /** Operations in clock order, none before `from`. */
  predicate Ordered(from: Timestamp, ops: seq<Op>)
    decreases |ops|
  {
    ops == [] || (from <= ops[0].now && Ordered(ops[0].now, ops[1..]))
  }

  function Run(policy: KeyPolicy, rows: seq<Key>, ops: seq<Op>): seq<Key>
    decreases |ops|
  {
    if ops == [] then rows else Run(policy, Apply(policy, rows, ops[0]), ops[1..])
  }

  function Clock(from: Timestamp, ops: seq<Op>): Timestamp {
    if ops == [] then from else ops[|ops| - 1].now
  }

  /** The table `bootstrap` leaves in an empty store. */
  function Boot(kid: string, now: Timestamp): seq<Key> {
    [NewKey(kid, now, now)]
  }

  /** Retired before it could sign: a later rotation cut it short while it was pending. */
  predicate Cut(k: Key) {
    k.retireAt.Some? && k.retireAt.value < k.activateAt
  }

  predicate RowOk(k: Key, clock: Timestamp) {
    && k.createdAt <= clock && k.createdAt <= k.activateAt && k.usable
    && (k.removedAt.Some? ==> k.retireAt.Some? && k.retireAt.value <= clock)
  }

  /** One open-ended key, the last made; insertion order is activation order among keys not cut
      while pending. */
  predicate InOrder(rows: seq<Key>, clock: Timestamp) {
    && rows != []
    && (forall i :: 0 <= i < |rows| ==> RowOk(rows[i], clock))
    && (forall i :: 0 <= i < |rows| ==> (rows[i].retireAt.None? <==> i == |rows| - 1))
    && (forall i, j :: 0 <= i < j < |rows| ==> rows[i].createdAt <= rows[j].createdAt)
    && (forall i, j :: 0 <= i < j < |rows| && !Cut(rows[i]) && !Cut(rows[j]) ==>
          rows[i].activateAt <= rows[j].activateAt)
  }

  /** Some activated, unretired key exists at every instant from `clock` on. */
  ghost predicate Covered(rows: seq<Key>, clock: Timestamp) {
    forall t :: t >= clock ==> HasSigner(rows, t)
  }

  predicate HasSigner(rows: seq<Key>, t: Timestamp) {
    exists i :: 0 <= i < |rows| && Eligible(rows[i], t)
  }

  lemma RotateKeepsOrder(policy: KeyPolicy, rows: seq<Key>, clock: Timestamp, kid: string, now: Timestamp, lead: nat)
    requires InOrder(rows, clock) && clock <= now
    ensures InOrder(Rotated(policy, rows, kid, now, lead), now)
  {
    var rows' := Rotated(policy, rows, kid, now, lead);
    var n := |rows|;
    forall i | 0 <= i < n
      ensures RowOk(rows'[i], now) && rows'[i].retireAt.Some?
      ensures rows'[i].activateAt == rows[i].activateAt && rows'[i].createdAt == rows[i].createdAt
      ensures Cut(rows[i]) ==> Cut(rows'[i])
      ensures rows[i].activateAt > now + lead ==> Cut(rows'[i])
    {
      assert RowOk(rows[i], clock);
    }
  }

  lemma RotateCovers(policy: KeyPolicy, rows: seq<Key>, clock: Timestamp, kid: string, now: Timestamp, lead: nat)
    requires InOrder(rows, clock) && Covered(rows, clock) && clock <= now
    ensures Covered(Rotated(policy, rows, kid, now, lead), now)
  {
    var rows' := Rotated(policy, rows, kid, now, lead);
    forall t | t >= now ensures HasSigner(rows', t) {
      if t >= now + lead {
        assert Eligible(rows'[|rows|], t);
      } else {
        assert HasSigner(rows, t);
        var i :| 0 <= i < |rows| && Eligible(rows[i], t);
        assert Eligible(rows'[i], t);
      }
    }
  }

  lemma PruneKeeps(rows: seq<Key>, clock: Timestamp, now: Timestamp)
    requires InOrder(rows, clock) && Covered(rows, clock) && clock <= now
    ensures InOrder(Pruned(rows, now), now) && Covered(Pruned(rows, now), now)
  {
    var rows' := Pruned(rows, now);
    forall i | 0 <= i < |rows| ensures RowOk(rows'[i], now) {
      assert RowOk(rows[i], clock);
    }
    forall t | t >= now ensures HasSigner(rows', t) {
      assert HasSigner(rows, t);
      var i :| 0 <= i < |rows| && Eligible(rows[i], t);
      assert rows'[i] == rows[i];
    }
  }

  /** After bootstrap, whatever the rotations (any leads, overlapping or immediate) and prunes:
      exactly the last key made is open-ended, insertion order is activation order among keys not
      cut while pending, and at the current instant and every later one a key signs. */
  lemma NoSigningGap(policy: KeyPolicy, kid: string, start: Timestamp, ops: seq<Op>, t: Timestamp)
    requires Ordered(start, ops) && Clock(start, ops) <= t
    ensures InOrder(Run(policy, Boot(kid, start), ops), Clock(start, ops))
    ensures Signing(Load(Run(policy, Boot(kid, start), ops)), t).Some?
  {
    assert Covered(Boot(kid, start), start) by {
      forall u | u >= start ensures HasSigner(Boot(kid, start), u) {
        assert Eligible(Boot(kid, start)[0], u);
      }
    }
    RunKeeps(policy, Boot(kid, start), start, ops);
    var rows := Run(policy, Boot(kid, start), ops);
    assert HasSigner(rows, t);
    var i :| 0 <= i < |rows| && Eligible(rows[i], t);
    NewestIsNewest(rows, t, i);
    CacheSignsNewest(rows, t);
  }

  lemma ApplyKeeps(policy: KeyPolicy, rows: seq<Key>, clock: Timestamp, op: Op)
    requires InOrder(rows, clock) && Covered(rows, clock) && clock <= op.now
    ensures InOrder(Apply(policy, rows, op), op.now) && Covered(Apply(policy, rows, op), op.now)
  {
    match op
    case Rotate(now, activateIn, kid) =>
      RotateKeepsOrder(policy, rows, clock, kid, now, Lead(policy, activateIn));
      RotateCovers(policy, rows, clock, kid, now, Lead(policy, activateIn));
    case Prune(now) => PruneKeeps(rows, clock, now);
  }

  lemma {:induction false} RunKeeps(policy: KeyPolicy, rows: seq<Key>, clock: Timestamp, ops: seq<Op>)
    requires InOrder(rows, clock) && Covered(rows, clock) && Ordered(clock, ops)
    ensures InOrder(Run(policy, rows, ops), Clock(clock, ops))
    ensures Covered(Run(policy, rows, ops), Clock(clock, ops))
    decreases |ops|
  {
    if ops != [] {
      ApplyKeeps(policy, rows, clock, ops[0]);
      RunKeeps(policy, Apply(policy, rows, ops[0]), ops[0].now, ops[1..]);
      assert Clock(clock, ops) == Clock(ops[0].now, ops[1..]);
    }
  }

  // ---------------------------------------------------------------------------------------
  // No orphaned token
  // ---------------------------------------------------------------------------------------

  /** How long past its successor's activation a superseded key stays published. */
  function Tail(policy: KeyPolicy): nat {
    policy.maxTtlSecs + RETIRE_MARGIN_SECS
  }

  /** No rotation asks for a lead of zero, and the policy's own lead, where one relies on it, is not zero. */
  predicate PositiveLeads(policy: KeyPolicy, ops: seq<Op>) {
    forall op :: op in ops && op.Rotate? ==>
      op.activateIn != Some(0) && (op.activateIn.None? ==> policy.publishLeadSecs > 0)
  }

  predicate IsSuccessor(policy: KeyPolicy, rows: seq<Key>, i: nat, j: nat)
    requires i < |rows|
  {
    i < j < |rows| && !Cut(rows[j]) && rows[i].retireAt == Some(rows[j].activateAt + Tail(policy))
  }

  ghost predicate HasSuccessor(policy: KeyPolicy, rows: seq<Key>, i: nat)
    requires i < |rows|
  {
    exists j: nat :: IsSuccessor(policy, rows, i, j)
  }

  /** A dated key that was not cut while pending is dated by a later key that was not either. */
  ghost predicate Linked(policy: KeyPolicy, rows: seq<Key>) {
    forall i: nat {:trigger HasSuccessor(policy, rows, i)} ::
      i < |rows| - 1 && !Cut(rows[i]) ==> HasSuccessor(policy, rows, i)
  }

  /** A row a positive-lead rotation leaves uncut is dated and no more: by the new key, or as it was. */
  lemma RotatedRow(policy: KeyPolicy, rows: seq<Key>, clock: Timestamp, kid: string, now: Timestamp, lead: nat, i: nat)
    requires i < |rows| && RowOk(rows[i], clock) && clock <= now && lead > 0
    requires !Cut(Rotated(policy, rows, kid, now, lead)[i])
    ensures var k, at := Rotated(policy, rows, kid, now, lead)[i], now + lead + Tail(policy);
            && k.activateAt == rows[i].activateAt && !Cut(rows[i])
            && (k.retireAt == Some(at) || (k == rows[i] && k.retireAt.Some? && k.retireAt.value <= at))
            && (k.retireAt == Some(at) ==> k.activateAt <= now + lead)
  {
  }

  lemma RotateLinks(policy: KeyPolicy, rows: seq<Key>, clock: Timestamp, kid: string, now: Timestamp, lead: nat)
    requires InOrder(rows, clock) && Linked(policy, rows) && clock <= now && lead > 0
    ensures Linked(policy, Rotated(policy, rows, kid, now, lead))
  {
    var rows', n := Rotated(policy, rows, kid, now, lead), |rows|;
    forall i: nat | i < n && !Cut(rows'[i]) ensures HasSuccessor(policy, rows', i) {
      RotateLinksRow(policy, rows, clock, kid, now, lead, i);
    }
  }

  lemma RotateLinksRow(policy: KeyPolicy, rows: seq<Key>, clock: Timestamp, kid: string, now: Timestamp, lead: nat,
                       i: nat)
    requires InOrder(rows, clock) && Linked(policy, rows) && clock <= now && lead > 0
    requires i < |rows| && !Cut(Rotated(policy, rows, kid, now, lead)[i])
    ensures HasSuccessor(policy, Rotated(policy, rows, kid, now, lead), i)
  {
    RotatedRow(policy, rows, clock, kid, now, lead, i);
    if Rotated(policy, rows, kid, now, lead)[i].retireAt == Some(now + lead + Tail(policy)) {
      assert IsSuccessor(policy, Rotated(policy, rows, kid, now, lead), i, |rows|);
    } else {
      SuccessorStays(policy, rows, clock, kid, now, lead, i);
    }
  }

  lemma SuccessorStays(policy: KeyPolicy, rows: seq<Key>, clock: Timestamp, kid: string, now: Timestamp, lead: nat,
                       i: nat)
    requires InOrder(rows, clock) && Linked(policy, rows) && clock <= now && lead > 0
    requires i < |rows| - 1 && !Cut(rows[i])
    requires Rotated(policy, rows, kid, now, lead)[i] == rows[i]
    requires rows[i].retireAt.value <= now + lead + Tail(policy)
    ensures HasSuccessor(policy, Rotated(policy, rows, kid, now, lead), i)
  {
    assert HasSuccessor(policy, rows, i);
    var j: nat :| IsSuccessor(policy, rows, i, j);
    assert rows[j].activateAt <= now + lead;
    var rows' := Rotated(policy, rows, kid, now, lead);
    assert j < |rows'| && rows'[j] == Dated(rows[j], now + lead + Tail(policy));
    assert IsSuccessor(policy, rows', i, j);
  }

  lemma PruneLinks(policy: KeyPolicy, rows: seq<Key>, now: Timestamp)
    requires Linked(policy, rows)
    ensures Linked(policy, Pruned(rows, now))
  {
    var rows' := Pruned(rows, now);
    forall i: nat | i < |rows| - 1 && !Cut(rows'[i]) ensures HasSuccessor(policy, rows', i) {
      assert !Cut(rows[i]) && HasSuccessor(policy, rows, i);
      var j: nat :| IsSuccessor(policy, rows, i, j);
      assert IsSuccessor(policy, rows', i, j);
    }
  }

  lemma {:induction false} RunLinks(policy: KeyPolicy, rows: seq<Key>, clock: Timestamp, ops: seq<Op>)
    requires InOrder(rows, clock) && Covered(rows, clock) && Linked(policy, rows)
    requires Ordered(clock, ops) && PositiveLeads(policy, ops)
    ensures Linked(policy, Run(policy, rows, ops))
    decreases |ops|
  {
    if ops != [] {
      var op, rows' := ops[0], Apply(policy, rows, ops[0]);
      match op {
        case Rotate(now, activateIn, kid) =>
          var lead := Lead(policy, activateIn);
          RotateKeepsOrder(policy, rows, clock, kid, now, lead);
          RotateCovers(policy, rows, clock, kid, now, lead);
          RotateLinks(policy, rows, clock, kid, now, lead);
        case Prune(now) =>
          PruneKeeps(rows, clock, now);
          PruneLinks(policy, rows, now);
      }
      assert PositiveLeads(policy, ops[1..]);
      RunLinks(policy, rows', op.now, ops[1..]);
    }
  }

  /** Following successors from an activated key reaches one that is eligible. */
  lemma {:induction false} SuccessorSigns(policy: KeyPolicy, rows: seq<Key>, clock: Timestamp, i: nat, t: Timestamp)
      returns (j: nat)
    requires InOrder(rows, clock) && Linked(policy, rows) && clock <= t
    requires i < |rows| && !Cut(rows[i]) && rows[i].activateAt <= t
    ensures i <= j < |rows| && !Cut(rows[j]) && Eligible(rows[j], t)
    decreases |rows| - i
  {
    assert RowOk(rows[i], clock);
    if rows[i].retireAt.None? || rows[i].retireAt.value > t {
      j := i;
    } else {
      assert HasSuccessor(policy, rows, i);
      var next: nat :| IsSuccessor(policy, rows, i, next);
      j := SuccessorSigns(policy, rows, clock, next, t);
    }
  }

  /** Whoever signs has at least a whole token lifetime plus the margin left to be published. */
  lemma SignerHasTime(policy: KeyPolicy, rows: seq<Key>, clock: Timestamp, t: Timestamp)
    requires InOrder(rows, clock) && Linked(policy, rows) && clock <= t
    requires Newest(rows, t).Some?
    ensures var k := rows[Newest(rows, t).value];
            k.retireAt.None? || k.retireAt.value > t + Tail(policy)
  {
    var i := Newest(rows, t).value;
    if rows[i].retireAt.Some? && rows[i].retireAt.value <= t + Tail(policy) {
      assert HasSuccessor(policy, rows, i);
      var next: nat :| IsSuccessor(policy, rows, i, next);
      var j := SuccessorSigns(policy, rows, clock, next, t);
      NewestIsNewest(rows, t, j);
      assert false;
    }
  }

  /** Row `i` stays published through `until` under later positive-lead operations. */
  lemma {:induction false} StaysPublished(policy: KeyPolicy, rows: seq<Key>, clock: Timestamp, ops: seq<Op>,
                                          i: nat, until: Timestamp)
    requires Ordered(clock, ops) && PositiveLeads(policy, ops) && Clock(clock, ops) <= until
    requires i < |rows| && rows[i].removedAt.None? && rows[i].activateAt <= clock
    requires rows[i].retireAt.None? || rows[i].retireAt.value > until
    requires until <= clock + Tail(policy)
    ensures i < |Run(policy, rows, ops)| && Run(policy, rows, ops)[i].kid == rows[i].kid
    ensures Published(Run(policy, rows, ops)[i], until)
    decreases |ops|
  {
    if ops != [] {
      var rows' := Apply(policy, rows, ops[0]);
      ClockPasses(ops[0].now, ops[1..]);
      assert Clock(clock, ops) == Clock(ops[0].now, ops[1..]);
      assert PositiveLeads(policy, ops[1..]);
      assert rows'[i].removedAt.None? && (rows'[i].retireAt.None? || rows'[i].retireAt.value > until);
      StaysPublished(policy, rows', ops[0].now, ops[1..], i, until);
    }
  }

  lemma {:induction false} ClockPasses(clock: Timestamp, ops: seq<Op>)
    requires Ordered(clock, ops)
    ensures clock <= Clock(clock, ops)
    decreases |ops|
  {
    if ops != [] {
      ClockPasses(ops[0].now, ops[1..]);
      assert Clock(clock, ops) == Clock(ops[0].now, ops[1..]);
    }
  }

  /** A row published late was published all along: dates only move in and removal is final. */
  lemma {:induction false} WasPublished(policy: KeyPolicy, rows: seq<Key>, ops: seq<Op>, i: nat, u: Timestamp,
                                        t: Timestamp)
    requires i < |rows| && u <= t
    requires i < |Run(policy, rows, ops)| ==> Published(Run(policy, rows, ops)[i], t)
    ensures i < |Run(policy, rows, ops)| && Run(policy, rows, ops)[i].kid == rows[i].kid
    ensures Published(rows[i], u)
    decreases |ops|
  {
    if ops != [] {
      var rows' := Apply(policy, rows, ops[0]);
      WasPublished(policy, rows', ops[1..], i, u, t);
      assert Published(rows'[i], u) && rows'[i].kid == rows[i].kid;
    }
  }

  lemma {:induction false} RunSplits(policy: KeyPolicy, rows: seq<Key>, a: seq<Op>, b: seq<Op>)
    ensures Run(policy, rows, a + b) == Run(policy, Run(policy, rows, a), b)
    decreases |a|
  {
    if a == [] {
      assert a + b == b;
    } else {
      assert (a + b)[0] == a[0] && (a + b)[1..] == a[1..] + b;
      RunSplits(policy, Apply(policy, rows, a[0]), a[1..], b);
    }
  }

  lemma {:induction false} OrderSplits(clock: Timestamp, a: seq<Op>, b: seq<Op>)
    requires Ordered(clock, a + b)
    ensures Ordered(clock, a) && Ordered(Clock(clock, a), b)
    decreases |a|
  {
    if a == [] {
      assert a + b == b;
    } else {
      assert (a + b)[0] == a[0] && (a + b)[1..] == a[1..] + b;
      OrderSplits(a[0].now, a[1..], b);
      assert Clock(clock, a) == Clock(a[0].now, a[1..]);
    }
  }

  /** After `before`, the signer at `t` stays published, whatever `after` does with positive
      leads, through the expiry of anything it signs at `t` plus the verifiers' allowance. */
  lemma PublishedUntilExpiry(policy: KeyPolicy, kid: string, start: Timestamp, before: seq<Op>, after: seq<Op>,
                             t: Timestamp, exp: Timestamp, u: Timestamp)
    requires Ordered(start, before) && Clock(start, before) <= t
    requires Ordered(t, after) && Clock(t, after) <= u
    requires PositiveLeads(policy, before) && PositiveLeads(policy, after)
    requires exp <= t + policy.maxTtlSecs && u <= exp + RETIRE_MARGIN_SECS
    ensures var rows := Run(policy, Boot(kid, start), before);
            var signer := Signing(Load(rows), t);
            && signer.Some?
            && exists k :: k in Jwks(Load(Run(policy, rows, after)), u) && k.kid == signer.value.kid
  {
    var rows := Run(policy, Boot(kid, start), before);
    NoSigningGap(policy, kid, start, before, t);
    CacheSignsNewest(rows, t);
    assert Covered(Boot(kid, start), start) by {
      forall v | v >= start ensures HasSigner(Boot(kid, start), v) {
        assert Eligible(Boot(kid, start)[0], v);
      }
    }
    RunLinks(policy, Boot(kid, start), start, before);
    SignerHasTime(policy, rows, Clock(start, before), t);
    var i := Newest(rows, t).value;
    StaysPublished(policy, rows, t, after, i, u);
    var rows' := Run(policy, rows, after);
    JwksIsPublished(rows', u);
    assert rows'[i] in Jwks(Load(rows'), u);
  }

  /** And it was published from the rotation that made it: at every earlier instant `u` at which
      its row was in the table. */
  lemma PublishedBeforeSigning(policy: KeyPolicy, rows: seq<Key>, between: seq<Op>, u: Timestamp, t: Timestamp, i: nat)
    requires u <= t && i < |rows|
    requires Newest(Run(policy, rows, between), t) == Some(i)
    ensures exists k :: k in Jwks(Load(rows), u) && Some(k.kid) ==
              (match Signing(Load(Run(policy, rows, between)), t) case Some(s) => Some(s.kid) case None => None)
  {
    CacheSignsNewest(Run(policy, rows, between), t);
    WasPublished(policy, rows, between, i, u, t);
    JwksIsPublished(rows, u);
    assert rows[i] in Jwks(Load(rows), u);
  }

  /** `t` falls after the first `n` operations of a history and no later than the next. */
  predicate Current(start: Timestamp, ops: seq<Op>, n: nat, t: Timestamp)
    requires n <= |ops|
  {
    Clock(start, ops[..n]) <= t && (n < |ops| ==> t <= ops[n].now)
  }

  /** Rows an operation sequence adds are dated no earlier than its clock. */
  lemma {:induction false} LaterRowsAreNewer(policy: KeyPolicy, rows: seq<Key>, from: Timestamp, ops: seq<Op>, i: nat)
    requires Ordered(from, ops)
    requires |rows| <= i < |Run(policy, rows, ops)|
    ensures from <= Run(policy, rows, ops)[i].createdAt
    decreases |ops|
  {
    if ops != [] {
      var rows' := Apply(policy, rows, ops[0]);
      if i < |rows'| {
        KeepsCreation(policy, rows', ops[1..], i);
      } else {
        LaterRowsAreNewer(policy, rows', ops[0].now, ops[1..], i);
      }
    }
  }

  lemma {:induction false} KeepsCreation(policy: KeyPolicy, rows: seq<Key>, ops: seq<Op>, i: nat)
    requires i < |rows|
    ensures |rows| <= |Run(policy, rows, ops)|
    ensures Run(policy, rows, ops)[i].createdAt == rows[i].createdAt
    decreases |ops|
  {
    if ops != [] {
      KeepsCreation(policy, Apply(policy, rows, ops[0]), ops[1..], i);
    }
  }

  /** The history between two points of it. */
  lemma Between(policy: KeyPolicy, rows: seq<Key>, start: Timestamp, ops: seq<Op>, i: nat, j: nat)
    requires Ordered(start, ops) && i <= j <= |ops|
    ensures Run(policy, rows, ops[..j]) == Run(policy, Run(policy, rows, ops[..i]), ops[i..j])
    ensures Ordered(start, ops[..i]) && Ordered(Clock(start, ops[..i]), ops[i..j])
    ensures Clock(start, ops[..j]) == Clock(Clock(start, ops[..i]), ops[i..j])
  {
    assert ops == ops[..j] + ops[j..] && ops[..j] == ops[..i] + ops[i..j];
    OrderSplits(start, ops[..j], ops[j..]);
    OrderSplits(start, ops[..i], ops[i..j]);
    RunSplits(policy, rows, ops[..i], ops[i..j]);
  }

  ghost predicate InJwks(policy: KeyPolicy, start: Timestamp, boot: string, ops: seq<Op>, n: nat, u: Timestamp,
                         kid: string)
    requires n <= |ops|
  {
    exists k :: k in Jwks(Load(Run(policy, Boot(boot, start), ops[..n])), u) && k.kid == kid
  }

  /** Who signs at `t` after the first `n` operations. */
  function SignerAt(policy: KeyPolicy, start: Timestamp, boot: string, ops: seq<Op>, n: nat, t: Timestamp): Option<Key>
    requires n <= |ops|
  {
    Signing(Load(Run(policy, Boot(boot, start), ops[..n])), t)
  }

  /** The row of whoever signs at `t` is in the table after the first `j` operations. */
  predicate InTable(policy: KeyPolicy, start: Timestamp, boot: string, ops: seq<Op>, i: nat, t: Timestamp, j: nat)
    requires i <= |ops| && j <= |ops|
  {
    var signer := Newest(Run(policy, Boot(boot, start), ops[..i]), t);
    signer.Some? ==> signer.value < |Run(policy, Boot(boot, start), ops[..j])|
  }

  lemma SignedAtOrAfter(policy: KeyPolicy, start: Timestamp, boot: string, ops: seq<Op>,
                        i: nat, t: Timestamp, exp: Timestamp, j: nat, u: Timestamp)
    requires Ordered(start, ops) && PositiveLeads(policy, ops)
    requires i <= j <= |ops| && t <= u && Current(start, ops, i, t) && Current(start, ops, j, u)
    requires exp <= t + policy.maxTtlSecs && u <= exp + RETIRE_MARGIN_SECS
    ensures SignerAt(policy, start, boot, ops, i, t).Some?
    ensures InJwks(policy, start, boot, ops, j, u, SignerAt(policy, start, boot, ops, i, t).value.kid)
  {
    Between(policy, Boot(boot, start), start, ops, i, j);
    var before, after := ops[..i], ops[i..j];
    if i < j {
      assert after[0] == ops[i];
      assert Clock(t, after) == Clock(Clock(start, before), after);
    }
    assert PositiveLeads(policy, before) && PositiveLeads(policy, after);
    PublishedUntilExpiry(policy, boot, start, before, after, t, exp, u);
  }

  lemma PublishedEarlier(policy: KeyPolicy, start: Timestamp, boot: string, ops: seq<Op>,
                         i: nat, t: Timestamp, j: nat, u: Timestamp)
    requires Ordered(start, ops) && j <= i <= |ops| && u <= t
    requires Current(start, ops, i, t) && Current(start, ops, j, u)
    requires SignerAt(policy, start, boot, ops, i, t).Some? && InTable(policy, start, boot, ops, i, t, j)
    ensures InJwks(policy, start, boot, ops, j, u, SignerAt(policy, start, boot, ops, i, t).value.kid)
  {
    var boots := Boot(boot, start);
    Between(policy, boots, start, ops, j, i);
    var early, between := Run(policy, boots, ops[..j]), ops[j..i];
    var rows := Run(policy, early, between);
    CacheSignsNewest(rows, t);
    PublishedBeforeSigning(policy, early, between, u, t, Newest(rows, t).value);
  }

  /** A key made before `u` was in the table by `u`. */
  lemma MadeBefore(policy: KeyPolicy, start: Timestamp, boot: string, ops: seq<Op>,
                   i: nat, t: Timestamp, j: nat, u: Timestamp)
    requires Ordered(start, ops) && i <= |ops| && j <= |ops| && Current(start, ops, j, u)
    requires SignerAt(policy, start, boot, ops, i, t).Some?
    requires i <= j || SignerAt(policy, start, boot, ops, i, t).value.createdAt < u
    ensures InTable(policy, start, boot, ops, i, t, j)
  {
    var boots := Boot(boot, start);
    CacheSignsNewest(Run(policy, boots, ops[..i]), t);
    if i <= j {
      Between(policy, boots, start, ops, i, j);
      RowsStay(policy, Run(policy, boots, ops[..i]), ops[i..j]);
    } else {
      var early, between := Run(policy, boots, ops[..j]), ops[j..i];
      Between(policy, boots, start, ops, j, i);
      var at := Newest(Run(policy, early, between), t).value;
      if at >= |early| {
        assert between[0] == ops[j];
        assert Ordered(u, between);
        LaterRowsAreNewer(policy, early, u, between, at);
      }
    }
  }

  lemma {:induction false} RowsStay(policy: KeyPolicy, rows: seq<Key>, ops: seq<Op>)
    ensures |rows| <= |Run(policy, rows, ops)|
    decreases |ops|
  {
    if ops != [] {
      RowsStay(policy, Apply(policy, rows, ops[0]), ops[1..]);
    }
  }

  lemma {:induction false} OrderedNows(from: Timestamp, ops: seq<Op>, a: nat, b: nat)
    requires Ordered(from, ops) && a <= b < |ops|
    ensures from <= ops[a].now <= ops[b].now
    decreases |ops|
  {
    if a > 0 {
      OrderedNows(ops[0].now, ops[1..], a - 1, b - 1);
    } else if b > 0 {
      OrderedNows(ops[0].now, ops[1..], b - 1, b - 1);
    }
  }

  /** Operations between two points of a history lie between their instants. */
  lemma EarlierStateEarlierInstant(start: Timestamp, ops: seq<Op>, i: nat, t: Timestamp, j: nat, u: Timestamp)
    requires Ordered(start, ops) && j < i <= |ops|
    requires Current(start, ops, i, t) && Current(start, ops, j, u)
    ensures u <= t
  {
    OrderedNows(start, ops, j, i - 1);
    assert ops[..i][i - 1] == ops[i - 1];
  }

  /** No orphaned token. Over any history of positive-lead rotations and prunes, the key that signs
      at `t` a token good until `exp` is in the JWK Set from the instant it was made, at every point
      of the history at which its row is there, through `exp` plus the verifiers' allowance. */
  lemma NoOrphanedToken(policy: KeyPolicy, start: Timestamp, boot: string, ops: seq<Op>,
                        i: nat, t: Timestamp, exp: Timestamp, j: nat, u: Timestamp)
    requires Ordered(start, ops) && PositiveLeads(policy, ops)
    requires i <= |ops| && Current(start, ops, i, t)
    requires j <= |ops| && Current(start, ops, j, u)
    requires exp <= t + policy.maxTtlSecs && u <= exp + RETIRE_MARGIN_SECS
    requires MadeBy(policy, start, boot, ops, i, t, j, u)
    ensures SignerAt(policy, start, boot, ops, i, t).Some?
    ensures InJwks(policy, start, boot, ops, j, u, SignerAt(policy, start, boot, ops, i, t).value.kid)
  {
    assert ops[..i] + ops[i..] == ops;
    OrderSplits(start, ops[..i], ops[i..]);
    NoSigningGap(policy, boot, start, ops[..i], t);
    CacheSignsNewest(Run(policy, Boot(boot, start), ops[..i]), t);
    if i <= j && t <= u {
      SignedAtOrAfter(policy, start, boot, ops, i, t, exp, j, u);
    } else {
      if !InTable(policy, start, boot, ops, i, t, j) {
        MadeBefore(policy, start, boot, ops, i, t, j, u);
      }
      if j < i {
        EarlierStateEarlierInstant(start, ops, i, t, j, u);
      } else if i < j {
        EarlierStateEarlierInstant(start, ops, j, u, i, t);
      }
      PublishedEarlier(policy, start, boot, ops, i, t, j, u);
    }
  }

  /** Whoever signs at `t` was made before `u`, or is in the table by then. */
  predicate MadeBy(policy: KeyPolicy, start: Timestamp, boot: string, ops: seq<Op>, i: nat, t: Timestamp, j: nat,
                   u: Timestamp)
    requires i <= |ops| && j <= |ops|
  {
    var signer := SignerAt(policy, start, boot, ops, i, t);
    signer.Some? ==> signer.value.createdAt < u || InTable(policy, start, boot, ops, i, t, j)
  }

  /** What a rotation does to the keys before it, exactly. With a lead, each stays in the JWK Set as long
      as it would have and no longer than a token lifetime and 300 seconds past the new key's activation;
      one that was to activate later still leaves at once. Without a lead, all leave at once. The new key
      is in the set from now on and may sign from its activation on. */
  lemma RotationIsExact(policy: KeyPolicy, rows: seq<Key>, kid: string, now: Timestamp, activateIn: Option<nat>,
                        i: nat, u: Timestamp)
    requires i < |rows| && now <= u
    ensures var rows' := Apply(policy, rows, Rotate(now, activateIn, kid));
            var lead := if activateIn.Some? then activateIn.value else policy.publishLeadSecs;
            && |rows'| == |rows| + 1
            && (Published(rows'[i], u) <==>
                  && Published(rows[i], u) && lead > 0 && rows[i].activateAt <= now + lead
                  && u < now + lead + policy.maxTtlSecs + 300)
            && rows'[|rows|].kid == kid && Published(rows'[|rows|], u)
            && (Eligible(rows'[|rows|], u) <==> now + lead <= u)
  {
  }

  /** A prune unpublishes nothing: at no later instant does it change what is published. */
  lemma PruneIsSilent(rows: seq<Key>, now: Timestamp, i: nat, u: Timestamp)
    requires i < |rows| && now <= u
    ensures |Pruned(rows, now)| == |rows| && (Published(Pruned(rows, now)[i], u) <==> Published(rows[i], u))
  {
  }

  /** A zero-lead rotation is the exception by design: every older key stops being published at
      once and the new one signs at once. */
  lemma EmergencyUnpublishes(policy: KeyPolicy, rows: seq<Key>, clock: Timestamp, kid: string, now: Timestamp,
                             u: Timestamp)
    requires InOrder(rows, clock) && clock <= now <= u
    ensures var rows' := Rotated(policy, rows, kid, now, 0);
            && (forall i :: 0 <= i < |rows| ==> !Published(rows'[i], u))
            && Signing(Load(rows'), u) == Some(NewKey(kid, now, now))
  {
    var rows', n := Rotated(policy, rows, kid, now, 0), |rows|;
    forall i | 0 <= i < n ensures !Published(rows'[i], u) {
      assert RowOk(rows[i], clock);
    }
    assert Eligible(rows'[n], u);
    NewestIsNewest(rows', u, n);
    CacheSignsNewest(rows', u);
  }

  // ---------------------------------------------------------------------------------------
  // Token lifetimes
  // ---------------------------------------------------------------------------------------

  /** The machine lane: what was asked for, held to the principal's and the issuer's maxima. */
  function MachineLifetime(asked: Option<nat>, principalMax: nat, machineTtl: nat, maxTtl: nat): Option<nat> {
    var ceiling := Min(principalMax, maxTtl);
    match asked
    case Some(secs) => if secs > ceiling then None else Some(secs)
    case None => Some(Min(machineTtl, ceiling))
  }

  /** The user lane: cut short at the session's idle expiry. */
  function UserLifetime(userTtl: nat, refreshUntil: Timestamp, now: Timestamp): nat {
    Min(userTtl, Max(refreshUntil - now, 1))
  }

  /** A machine token never outlives its principal's ceiling nor the issuer's. What was asked for is
      granted as asked, or refused exactly if it is more than either; unasked, the lifetime is the longest
      that the machine default and both ceilings allow. */
  lemma MachineLifetimeIsExact(asked: Option<nat>, principalMax: nat, machineTtl: nat, maxTtl: nat)
    ensures var ttl := MachineLifetime(asked, principalMax, machineTtl, maxTtl);
            && (ttl.Some? ==> ttl.value <= principalMax && ttl.value <= maxTtl)
            && (asked.Some? ==> (ttl.None? <==> asked.value > principalMax || asked.value > maxTtl))
            && (asked.Some? && ttl.Some? ==> ttl == asked)
            && (asked.None? ==> ttl.Some? && ttl.value <= machineTtl
                                && (ttl.value == machineTtl || ttl.value == principalMax || ttl.value == maxTtl))
  {
  }

  /** A user token of a session that is not idled out ends after it began, no later than the session's idle
      expiry and no later than the user lifetime, and at one of the two. */
  lemma UserTokenEndsWithSession(userTtl: nat, refreshUntil: Timestamp, now: Timestamp)
    requires now < refreshUntil && userTtl > 0
    ensures var exp := now + UserLifetime(userTtl, refreshUntil, now);
            && now < exp <= refreshUntil && exp <= now + userTtl
            && (exp == refreshUntil || exp == now + userTtl)
  {
  }

  /** No machine token outlives the publication of the key that signed it, whatever the caller
      asks for and however long signing takes after the claims were dated. */
  lemma MachineTokenIsNotOrphaned(policy: KeyPolicy, start: Timestamp, boot: string, ops: seq<Op>,
                                  asked: Option<nat>, principalMax: nat, machineTtl: nat,
                                  i: nat, claimed: Timestamp, t: Timestamp, j: nat, u: Timestamp)
    requires Ordered(start, ops) && PositiveLeads(policy, ops)
    requires i <= |ops| && j <= |ops| && claimed <= t && Current(start, ops, i, t) && Current(start, ops, j, u)
    requires MadeBy(policy, start, boot, ops, i, t, j, u)
    requires var ttl := MachineLifetime(asked, principalMax, machineTtl, policy.maxTtlSecs);
             ttl.Some? && u <= claimed + ttl.value + RETIRE_MARGIN_SECS
    ensures SignerAt(policy, start, boot, ops, i, t).Some?
    ensures InJwks(policy, start, boot, ops, j, u, SignerAt(policy, start, boot, ops, i, t).value.kid)
  {
    var exp := claimed + MachineLifetime(asked, principalMax, machineTtl, policy.maxTtlSecs).value;
    NoOrphanedToken(policy, start, boot, ops, i, t, exp, j, u);
  }

  /** The same for the user lane, with a user lifetime the configuration accepts. */
  lemma UserTokenIsNotOrphaned(policy: KeyPolicy, start: Timestamp, boot: string, ops: seq<Op>,
                               userTtl: nat, refreshUntil: Timestamp,
                               i: nat, claimed: Timestamp, t: Timestamp, j: nat, u: Timestamp)
    requires Ordered(start, ops) && PositiveLeads(policy, ops)
    requires 1 <= userTtl <= policy.maxTtlSecs
    requires i <= |ops| && j <= |ops| && claimed <= t && Current(start, ops, i, t) && Current(start, ops, j, u)
    requires MadeBy(policy, start, boot, ops, i, t, j, u)
    requires u <= claimed + UserLifetime(userTtl, refreshUntil, claimed) + RETIRE_MARGIN_SECS
    ensures SignerAt(policy, start, boot, ops, i, t).Some?
    ensures InJwks(policy, start, boot, ops, j, u, SignerAt(policy, start, boot, ops, i, t).value.kid)
  {
    var exp := claimed + UserLifetime(userTtl, refreshUntil, claimed);
    NoOrphanedToken(policy, start, boot, ops, i, t, exp, j, u);
  }
}
