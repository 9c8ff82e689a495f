/** The keyed token-bucket limiter: fixed-point refills with floors and saturation, and a bounded
    table that forgets only buckets indistinguishable from absent ones. Instants and durations are
    in nanoseconds. */
module RateLimit {
  import opened Prelude

  const U64_MAX: int := 0xFFFF_FFFF_FFFF_FFFF

  /** Fixed-point scale of token accounting. */
  const SCALE: int := 1_000_000

  /** `burst` requests, the whole budget restored over `per`. */
  datatype Quota = Quota(burst: int, per: int)

  /** A 32-bit burst of at least one request, over at least a second and within a 64-bit count of
      nanoseconds. */
  predicate ValidQuota(q: Quota) {
    1 <= q.burst < 0x1_0000_0000 && 1_000_000_000 <= q.per <= U64_MAX
  }

  datatype Bucket = Bucket(tokens: int, last: int)

  type Table = map<string, Bucket>

  datatype Decision = Allow | Deny(retryAfter: int)

  function CapacityTokens(q: Quota): int {
    q.burst * SCALE
  }

  function SaturatingMul(a: int, b: int): int {
    Min(a * b, U64_MAX)
  }

  function Refill(q: Quota, b: Bucket, now: int): int
    requires ValidQuota(q)
  {
    SaturatingMul(Since(now, b.last), CapacityTokens(q)) / q.per
  }

  /** How long a caller is told to wait when `tokens` (less than one whole token) remain. */
  function RetryAfter(q: Quota, tokens: int): int
    requires ValidQuota(q)
  {
    Max(SaturatingMul(SCALE - tokens, q.per) / CapacityTokens(q), 1)
  }

  /** Refill a bucket and take one token if there is one. */
  function Spend(q: Quota, b: Bucket, now: int): (Bucket, Decision)
    requires ValidQuota(q)
  {
    var tokens := Min(b.tokens + Refill(q, b, now), CapacityTokens(q));
    if tokens >= SCALE then (Bucket(tokens - SCALE, now), Allow)
    else (Bucket(tokens, now), Deny(RetryAfter(q, tokens)))
  }

  predicate Full(q: Quota, b: Bucket, now: int)
    requires ValidQuota(q)
  {
    b.tokens + Refill(q, b, now) >= CapacityTokens(q)
  }

  /** The eviction pass: drop the buckets that have refilled completely. */
  function Retain(q: Quota, t: Table, now: int): Table
    requires ValidQuota(q)
  {
    map k | k in t && !Full(q, t[k], now) :: t[k]
  }

  /** A new key finds no room even after the eviction pass. */
  predicate Refused(q: Quota, capacity: nat, t: Table, key: string, now: int)
    requires ValidQuota(q)
  {
    key !in t && |t| >= capacity && |Retain(q, t, now)| >= capacity
  }

  /** One check against the bounded table. */
  function Check(q: Quota, capacity: nat, t: Table, key: string, now: int): (Table, Decision)
    requires ValidQuota(q)
  {
    if key in t then
      var (b, d) := Spend(q, t[key], now);
      (t[key := b], d)
    else
      var room := if |t| >= capacity then Retain(q, t, now) else t;
      if |room| >= capacity then (room, Deny(q.per))
      else (room[key := Bucket(CapacityTokens(q) - SCALE, now)], Allow)
  }

  class Limiter {
    const quota: Quota
    const capacity: nat
    var buckets: Table

    constructor (quota: Quota, capacity: nat)
      ensures this.quota == quota && this.capacity == Max(capacity, 1) && buckets == map[]
    {
      this.quota := quota;
      this.capacity := Max(capacity, 1);
      this.buckets := map[];
    }

    /** Spend one token for `key`. The whole new table and the answer are `Check`'s, whose runs
        the lemmas below are about. */
    method CheckAt(key: string, now: int) returns (decision: Decision)
      requires ValidQuota(quota)
      modifies this
      ensures (buckets, decision) == Check(quota, capacity, old(buckets), key, now)
      ensures decision.Allow? ==> key in buckets && buckets[key].last == now
    {
      var capacityTokens := quota.burst * SCALE;
      if key in buckets {
        var bucket := buckets[key];
        var refill := SaturatingMul(Since(now, bucket.last), capacityTokens) / quota.per;
        bucket := Bucket(Min(bucket.tokens + refill, capacityTokens), now);
        if bucket.tokens >= SCALE {
          bucket := bucket.(tokens := bucket.tokens - SCALE);
          decision := Allow;
        } else {
          var missing := SCALE - bucket.tokens;
          decision := Deny(Max(SaturatingMul(missing, quota.per) / capacityTokens, 1));
        }
        buckets := buckets[key := bucket];
        return;
      }
      if |buckets| >= capacity {
        buckets := map k | k in buckets && !Full(quota, buckets[k], now) :: buckets[k];
        if |buckets| >= capacity {
          return Deny(quota.per);
        }
      }
      buckets := buckets[key := Bucket(capacityTokens - SCALE, now)];
      decision := Allow;
    }
  }

  // ---------------------------------------------------------------------------------------
  // Arithmetic
  // ---------------------------------------------------------------------------------------

  lemma DivIsFloor(a: int, d: int)
    requires d > 0
    ensures a / d * d <= a < (a / d + 1) * d
  {
  }

  lemma MulMonotone(a: int, b: int, c: int)
    requires a <= b && 0 <= c
    ensures a * c <= b * c
  {
  }

  lemma DivMonotone(a: int, b: int, d: int)
    requires a <= b && d > 0
    ensures a / d <= b / d
  {
    DivIsFloor(a, d);
    DivIsFloor(b, d);
    if a / d > b / d {
      MulMonotone(b / d + 1, a / d, d);
    }
  }

  /** A quotient reaches `m` exactly when the dividend reaches `m * d`. */
  lemma DivReaches(a: int, d: int, m: int)
    requires d > 0
    ensures a / d >= m <==> a >= m * d
  {
    DivIsFloor(a, d);
    if a / d >= m {
      MulMonotone(m, a / d, d);
    } else {
      MulMonotone(a / d + 1, m, d);
    }
  }

  lemma RefillBounds(q: Quota, b: Bucket, now: int)
    requires ValidQuota(q)
    ensures CapacityTokens(q) >= SCALE
    ensures 0 <= Refill(q, b, now)
    ensures Refill(q, b, now) * q.per <= Since(now, b.last) * CapacityTokens(q)
  {
    var product := Since(now, b.last) * CapacityTokens(q);
    MulMonotone(0, Since(now, b.last), CapacityTokens(q));
    DivIsFloor(Min(product, U64_MAX), q.per);
    DivReaches(Min(product, U64_MAX), q.per, 0);
  }

  lemma RefillMonotone(q: Quota, b: Bucket, now: int, later: int)
    requires ValidQuota(q) && now <= later
    ensures Refill(q, b, now) <= Refill(q, b, later)
  {
    MulMonotone(Since(now, b.last), Since(later, b.last), CapacityTokens(q));
    DivMonotone(SaturatingMul(Since(now, b.last), CapacityTokens(q)),
                SaturatingMul(Since(later, b.last), CapacityTokens(q)), q.per);
  }

  predicate BucketOk(q: Quota, b: Bucket, now: int) {
    0 <= b.tokens <= CapacityTokens(q) && b.last <= now
  }

  predicate TableOk(q: Quota, t: Table, now: int) {
    forall k :: k in t ==> BucketOk(q, t[k], now)
  }

  lemma CheckKeepsOk(q: Quota, capacity: nat, t: Table, key: string, now: int)
    requires ValidQuota(q) && TableOk(q, t, now)
    ensures TableOk(q, Check(q, capacity, t, key, now).0, now)
  {
    if key in t {
      RefillBounds(q, t[key], now);
    }
  }

  // ---------------------------------------------------------------------------------------
  // Runs
  // ---------------------------------------------------------------------------------------

  datatype Call = Call(key: string, now: int)

  /** Calls in the order they take the lock, from an instant no later than the first. */
  predicate Ordered(from: int, calls: seq<Call>)
    decreases |calls|
  {
    calls == [] || (from <= calls[0].now && Ordered(calls[0].now, calls[1..]))
  }

  function Final(q: Quota, capacity: nat, t: Table, calls: seq<Call>): Table
    requires ValidQuota(q)
    decreases |calls|
  {
    if calls == [] then t
    else Final(q, capacity, Check(q, capacity, t, calls[0].key, calls[0].now).0, calls[1..])
  }

  function Decisions(q: Quota, capacity: nat, t: Table, calls: seq<Call>): (ds: seq<Decision>)
    requires ValidQuota(q)
    ensures |ds| == |calls|
    decreases |calls|
  {
    if calls == [] then []
    else
      var (t', d) := Check(q, capacity, t, calls[0].key, calls[0].now);
      [d] + Decisions(q, capacity, t', calls[1..])
  }

  /** Which calls of a run are refused for want of room. */
  function Refusals(q: Quota, capacity: nat, t: Table, calls: seq<Call>): (rs: seq<bool>)
    requires ValidQuota(q)
    ensures |rs| == |calls|
    decreases |calls|
  {
    if calls == [] then []
    else
      [Refused(q, capacity, t, calls[0].key, calls[0].now)]
      + Refusals(q, capacity, Check(q, capacity, t, calls[0].key, calls[0].now).0, calls[1..])
  }

  /** A tracked key has not refilled: an absent bucket would allow it more. */
  predicate Busy(q: Quota, b: Bucket, now: int)
    requires ValidQuota(q)
  {
    var elapsed := if now < b.last then 0 else now - b.last;
    var refill := if elapsed * (q.burst * 1_000_000) <= U64_MAX then elapsed * (q.burst * 1_000_000) else U64_MAX;
    b.tokens + refill / q.per < q.burst * 1_000_000
  }

  /** A key the table does not track is refused exactly if as many as it can hold are busy, and told to
      wait out the whole window; then only those stay. Otherwise it is allowed and tracked. */
  lemma RefusedExactly(q: Quota, capacity: nat, t: Table, key: string, now: int)
    requires ValidQuota(q) && key !in t
    ensures var busy := set k | k in t && Busy(q, t[k], now);
            var (t', d) := Check(q, capacity, t, key, now);
            if |busy| >= capacity then d == Deny(q.per) && t'.Keys == busy
            else d == Allow && key in t' && t'[key] == Bucket((q.burst - 1) * 1_000_000, now) && busy <= t'.Keys
  {
    var busy := set k | k in t && Busy(q, t[k], now);
    forall k | k in t ensures Busy(q, t[k], now) <==> !Full(q, t[k], now) {
    }
    assert Retain(q, t, now).Keys == busy;
    SubsetIsSmaller(busy, t.Keys);
  }

  /** The table never outgrows its capacity. */
  lemma {:induction false} TableIsBounded(q: Quota, capacity: nat, t: Table, calls: seq<Call>)
    requires ValidQuota(q) && capacity >= 1 && |t| <= capacity
    ensures |Final(q, capacity, t, calls)| <= capacity
    decreases |calls|
  {
    if calls != [] {
      var key, now := calls[0].key, calls[0].now;
      var t' := Check(q, capacity, t, key, now).0;
      if key !in t {
        RetainShrinks(q, t, now);
      }
      assert |t'| <= capacity by {
        if key in t { assert t'.Keys == t.Keys; assert |t'.Keys| == |t.Keys|; }
      }
      TableIsBounded(q, capacity, t', calls[1..]);
    }
  }

  lemma RetainShrinks(q: Quota, t: Table, now: int)
    requires ValidQuota(q)
    ensures |Retain(q, t, now)| <= |t|
  {
    var kept := Retain(q, t, now);
    assert kept.Keys <= t.Keys;
    SubsetIsSmaller(kept.Keys, t.Keys);
  }

  lemma SubsetIsSmaller<T>(a: set<T>, b: set<T>)
    requires a <= b
    ensures |a| <= |b|
  {
    assert b == a + (b - a);
  }

  // ---------------------------------------------------------------------------------------
  // The bounded table refines one bucket per key
  // ---------------------------------------------------------------------------------------

  /** A limiter with one bucket per key and no capacity. */
  function UnboundedCheck(q: Quota, u: Table, key: string, now: int): (Table, Decision)
    requires ValidQuota(q)
  {
    if key in u then
      var (b, d) := Spend(q, u[key], now);
      (u[key := b], d)
    else (u[key := Bucket(CapacityTokens(q) - SCALE, now)], Allow)
  }

  /** Its answers to the calls not marked to skip. */
  function UnboundedDecisions(q: Quota, u: Table, calls: seq<Call>, skip: seq<bool>)
    : (ds: seq<Option<Decision>>)
    requires ValidQuota(q) && |skip| == |calls|
    ensures |ds| == |calls|
    decreases |calls|
  {
    if calls == [] then []
    else if skip[0] then [None] + UnboundedDecisions(q, u, calls[1..], skip[1..])
    else
      var (u', d) := UnboundedCheck(q, u, calls[0].key, calls[0].now);
      [Some(d)] + UnboundedDecisions(q, u', calls[1..], skip[1..])
  }

  /** The bounded table holds the same buckets, short of some that are full by `now`. */
  predicate Forgets(q: Quota, t: Table, u: Table, now: int)
    requires ValidQuota(q)
  {
    && TableOk(q, u, now)
    && t.Keys <= u.Keys
    && (forall k :: k in t ==> t[k] == u[k])
    && (forall k :: k in u && k !in t ==> Full(q, u[k], now))
  }

  lemma ForgetsLater(q: Quota, t: Table, u: Table, now: int, later: int)
    requires ValidQuota(q) && Forgets(q, t, u, now) && now <= later
    ensures Forgets(q, t, u, later)
  {
    forall k | k in u && k !in t ensures Full(q, u[k], later) {
      RefillMonotone(q, u[k], now, later);
    }
  }

  /** A full bucket answers exactly as an absent one. */
  lemma FullIsAbsent(q: Quota, b: Bucket, now: int)
    requires ValidQuota(q) && Full(q, b, now)
    ensures Spend(q, b, now) == (Bucket(CapacityTokens(q) - SCALE, now), Allow)
  {
    RefillBounds(q, b, now);
  }

  lemma CheckRefines(q: Quota, capacity: nat, t: Table, u: Table, key: string, now: int)
    requires ValidQuota(q) && Forgets(q, t, u, now)
    ensures var (t', d) := Check(q, capacity, t, key, now);
            if Refused(q, capacity, t, key, now) then
              key !in t && d == Deny(q.per) && Forgets(q, t', u, now)
            else
              var (u', d') := UnboundedCheck(q, u, key, now);
              d == d' && Forgets(q, t', u', now)
  {
    var (t', d) := Check(q, capacity, t, key, now);
    var (u', d') := UnboundedCheck(q, u, key, now);
    CheckKeepsOk(q, |u| + 1, u, key, now);
    assert u' == Check(q, |u| + 1, u, key, now).0;
    if key !in t && key in u {
      FullIsAbsent(q, u[key], now);
    }
  }

  /** Skipped calls were answered `Deny(per)`; the others as the specification answers them. */
  predicate Agree(per: int, skip: seq<bool>, ds: seq<Decision>, spec: seq<Option<Decision>>) {
    && |skip| == |ds| == |spec|
    && forall i :: 0 <= i < |skip| ==>
         if skip[i] then ds[i] == Deny(per) && spec[i] == None else spec[i] == Some(ds[i])
  }

  /** Over every run of the bounded limiter: a call refused for want of room names an untracked
      key and is answered `Deny(per)`; every other call is answered as by one bucket per key. */
  lemma BoundedRefinesUnbounded(q: Quota, capacity: nat, start: int, calls: seq<Call>)
    requires ValidQuota(q) && Ordered(start, calls)
    ensures var skip := Refusals(q, capacity, map[], calls);
            Agree(q.per, skip, Decisions(q, capacity, map[], calls), UnboundedDecisions(q, map[], calls, skip))
  {
    RefinesFrom(q, capacity, map[], map[], start, calls);
  }

  lemma {:induction false} RefinesFrom(q: Quota, capacity: nat, t: Table, u: Table, now: int, calls: seq<Call>)
    requires ValidQuota(q) && Forgets(q, t, u, now) && Ordered(now, calls)
    ensures var skip := Refusals(q, capacity, t, calls);
            Agree(q.per, skip, Decisions(q, capacity, t, calls), UnboundedDecisions(q, u, calls, skip))
    decreases |calls|
  {
    if calls != [] {
      var key, at := calls[0].key, calls[0].now;
      ForgetsLater(q, t, u, now, at);
      CheckRefines(q, capacity, t, u, key, at);
      var t' := Check(q, capacity, t, key, at).0;
      var refused := Refused(q, capacity, t, key, at);
      var u' := if refused then u else UnboundedCheck(q, u, key, at).0;
      RefinesFrom(q, capacity, t', u', at, calls[1..]);
      var rest := Refusals(q, capacity, t', calls[1..]);
      assert ([refused] + rest)[1..] == rest;
      var d, s := Decisions(q, capacity, t, calls)[0],
                  if refused then None else Some(UnboundedCheck(q, u, key, at).1);
      AgreeCons(q.per, refused, d, s, rest, Decisions(q, capacity, t', calls[1..]),
                UnboundedDecisions(q, u', calls[1..], rest));
    }
  }

  lemma AgreeCons(per: int, skip: bool, d: Decision, s: Option<Decision>,
                  skips: seq<bool>, ds: seq<Decision>, spec: seq<Option<Decision>>)
    requires Agree(per, skips, ds, spec)
    requires if skip then d == Deny(per) && s == None else s == Some(d)
    ensures Agree(per, [skip] + skips, [d] + ds, [s] + spec)
  {
  }

  // ---------------------------------------------------------------------------------------
  // Admission bound
  // ---------------------------------------------------------------------------------------

  /** What `key` may still spend, in token-nanoseconds and without flooring: an upper bound on
      its bucket, or a whole budget if it has none. */
  function Level(q: Quota, t: Table, key: string, now: int): int
    requires ValidQuota(q)
  {
    var whole := CapacityTokens(q) * q.per;
    if key in t then Min(t[key].tokens * q.per + Since(now, t[key].last) * CapacityTokens(q), whole)
    else whole
  }

  lemma LevelGrows(q: Quota, t: Table, key: string, now: int, later: int)
    requires ValidQuota(q) && TableOk(q, t, now) && now <= later
    ensures 0 <= Level(q, t, key, now)
    ensures Level(q, t, key, later) <= Level(q, t, key, now) + (later - now) * CapacityTokens(q)
  {
    var c := CapacityTokens(q);
    MulMonotone(0, later - now, c);
    assert 0 <= c * q.per by { MulMonotone(0, c, q.per); }
    if key in t {
      var e := Since(now, t[key].last);
      assert (e + (later - now)) * c == e * c + (later - now) * c;
      assert 0 <= e * c by { MulMonotone(0, e, c); }
      assert 0 <= t[key].tokens * q.per by { MulMonotone(0, t[key].tokens, q.per); }
    }
  }

  /** Spending a token costs the level a whole token; nothing else a check does raises it. */
  lemma CheckCosts(q: Quota, capacity: nat, t: Table, call: Call, key: string)
    requires ValidQuota(q) && TableOk(q, t, call.now)
    ensures var (t', d) := Check(q, capacity, t, call.key, call.now);
            var cost := if call.key == key && d.Allow? then SCALE * q.per else 0;
            Level(q, t', key, call.now) + cost <= Level(q, t, key, call.now)
  {
    if call.key != key {
      BystanderKeepsLevel(q, capacity, t, call, key);
    } else if key in t {
      SpendCosts(q, t[key], call.now);
    } else {
      MulMonotone(0, SCALE, q.per);
      assert (CapacityTokens(q) - SCALE) * q.per + SCALE * q.per == CapacityTokens(q) * q.per;
    }
  }

  /** A check of another key leaves this one's level alone, even if it evicts its bucket. */
  lemma BystanderKeepsLevel(q: Quota, capacity: nat, t: Table, call: Call, key: string)
    requires ValidQuota(q) && TableOk(q, t, call.now) && call.key != key
    ensures Level(q, Check(q, capacity, t, call.key, call.now).0, key, call.now) == Level(q, t, key, call.now)
  {
    var t' := Check(q, capacity, t, call.key, call.now).0;
    if key in t && key !in t' {
      FullIsWhole(q, t, key, call.now);
    }
  }

  lemma FullIsWhole(q: Quota, t: Table, key: string, now: int)
    requires ValidQuota(q) && key in t && Full(q, t[key], now)
    ensures Level(q, t, key, now) == CapacityTokens(q) * q.per
  {
    RefillBounds(q, t[key], now);
    var tokens, refill := t[key].tokens, Refill(q, t[key], now);
    MulMonotone(CapacityTokens(q), tokens + refill, q.per);
    assert (tokens + refill) * q.per == tokens * q.per + refill * q.per;
  }

  lemma SpendCosts(q: Quota, b: Bucket, now: int)
    requires ValidQuota(q) && BucketOk(q, b, now)
    ensures var (b', d) := Spend(q, b, now);
            var whole := CapacityTokens(q) * q.per;
            && b'.last == now
            && b'.tokens * q.per + (if d.Allow? then SCALE * q.per else 0)
               <= Min(b.tokens * q.per + Since(now, b.last) * CapacityTokens(q), whole)
  {
    var c := CapacityTokens(q);
    RefillBounds(q, b, now);
    var tokens := Min(b.tokens + Refill(q, b, now), c);
    MulMonotone(tokens, c, q.per);
    MulMonotone(tokens, b.tokens + Refill(q, b, now), q.per);
    assert (b.tokens + Refill(q, b, now)) * q.per == b.tokens * q.per + Refill(q, b, now) * q.per;
    assert (tokens - SCALE) * q.per == tokens * q.per - SCALE * q.per;
  }

  /** How many of a run's calls for `key` are allowed. */
  function Allows(q: Quota, capacity: nat, t: Table, calls: seq<Call>, key: string): nat
    requires ValidQuota(q)
    decreases |calls|
  {
    if calls == [] then 0
    else
      var (t', d) := Check(q, capacity, t, calls[0].key, calls[0].now);
      (if calls[0].key == key && d.Allow? then 1 else 0) + Allows(q, capacity, t', calls[1..], key)
  }

  function LastInstant(now: int, calls: seq<Call>): int {
    if calls == [] then now else calls[|calls| - 1].now
  }

  lemma {:induction false} AllowsSpendLevel(q: Quota, capacity: nat, t: Table, now: int, calls: seq<Call>, key: string)
    requires ValidQuota(q) && TableOk(q, t, now) && Ordered(now, calls)
    ensures now <= LastInstant(now, calls)
    ensures Allows(q, capacity, t, calls, key) * (SCALE * q.per)
         <= Level(q, t, key, now) + (LastInstant(now, calls) - now) * CapacityTokens(q)
    decreases |calls|
  {
    LevelGrows(q, t, key, now, now);
    if calls != [] {
      var at, c := calls[0].now, CapacityTokens(q);
      var (t', d) := Check(q, capacity, t, calls[0].key, at);
      LevelGrows(q, t, key, now, at);
      CheckCosts(q, capacity, t, calls[0], key);
      CheckKeepsOk(q, capacity, t, calls[0].key, at);
      AllowsSpendLevel(q, capacity, t', at, calls[1..], key);
      var end := LastInstant(now, calls);
      assert end == LastInstant(at, calls[1..]);
      var one := if calls[0].key == key && d.Allow? then 1 else 0;
      SumCosts(one, Allows(q, capacity, t', calls[1..], key), SCALE * q.per, end - at, at - now, c,
               Level(q, t', key, at), Level(q, t, key, at), Level(q, t, key, now));
    }
  }

  lemma SumCosts(one: int, rest: int, cost: int, after: int, gap: int, c: int, l2: int, l1: int, l0: int)
    requires rest * cost <= l2 + after * c
    requires l2 + one * cost <= l1 <= l0 + gap * c
    ensures (one + rest) * cost <= l0 + (after + gap) * c
  {
    assert (one + rest) * cost == one * cost + rest * cost;
    assert (after + gap) * c == after * c + gap * c;
  }

  lemma {:induction false} FinalIsOk(q: Quota, capacity: nat, t: Table, now: int, calls: seq<Call>)
    requires ValidQuota(q) && TableOk(q, t, now) && Ordered(now, calls)
    ensures TableOk(q, Final(q, capacity, t, calls), LastInstant(now, calls))
    ensures now <= LastInstant(now, calls)
    decreases |calls|
  {
    if calls != [] {
      CheckKeepsOk(q, capacity, t, calls[0].key, calls[0].now);
      FinalIsOk(q, capacity, Check(q, capacity, t, calls[0].key, calls[0].now).0, calls[0].now, calls[1..]);
      assert LastInstant(now, calls) == LastInstant(calls[0].now, calls[1..]);
    }
  }

  /** In any window of any run, whatever is evicted and re-created meanwhile, a key is allowed at
      most `burst + W * burst / per` times, where `W` spans the window. */
  lemma AdmissionBound(q: Quota, capacity: nat, start: int, before: seq<Call>, window: seq<Call>, key: string)
    requires ValidQuota(q) && Ordered(start, before)
    requires window != [] && Ordered(LastInstant(start, before), window)
    ensures var n := Allows(q, capacity, Final(q, capacity, map[], before), window, key);
            var w := window[|window| - 1].now - window[0].now;
            n * q.per <= q.burst * q.per + w * q.burst
  {
    var t := Final(q, capacity, map[], before);
    FinalIsOk(q, capacity, map[], start, before);
    var first, last := window[0].now, window[|window| - 1].now;
    assert Ordered(first, window);
    AllowsSpendLevel(q, capacity, t, first, window, key);
    var n, w := Allows(q, capacity, t, window, key), last - first;
    Unscale(n, q.per, q.burst, w);
  }

  lemma Unscale(n: int, per: int, burst: int, w: int)
    requires n * (1_000_000 * per) <= burst * 1_000_000 * per + w * (burst * 1_000_000)
    ensures n * per <= burst * per + w * burst
  {
    assert n * (1_000_000 * per) == 1_000_000 * (n * per);
    assert burst * 1_000_000 * per == 1_000_000 * (burst * per);
    assert w * (burst * 1_000_000) == 1_000_000 * (w * burst);
  }

  // ---------------------------------------------------------------------------------------
  // Retry-After
  // ---------------------------------------------------------------------------------------

  /** After a refusal that left `tokens` in the bucket, would a check `wait` later be allowed? */
  predicate AllowedAfter(q: Quota, tokens: int, now: int, wait: nat)
    requires ValidQuota(q)
  {
    Spend(q, Bucket(tokens, now), now + wait).1.Allow?
  }

  /** The exact waiting time: a lone check is allowed once the unsaturated refill covers what is
      missing, as long as that much fits in 64 bits at all. */
  lemma AllowedExactly(q: Quota, tokens: int, now: int, wait: nat)
    requires ValidQuota(q) && 0 <= tokens < SCALE
    ensures AllowedAfter(q, tokens, now, wait)
       <==> wait * CapacityTokens(q) >= (SCALE - tokens) * q.per && (SCALE - tokens) * q.per <= U64_MAX
  {
    var b := Bucket(tokens, now);
    var product := SaturatingMul(wait, CapacityTokens(q));
    DivReaches(product, q.per, SCALE - tokens);
    assert Refill(q, b, now + wait) == product / q.per;
  }

  /** `retry_after` is tight when `missing * per` fits in 64 bits: sooner is denied, and one
      nanosecond past it is allowed. */
  lemma RetryAfterIsTight(q: Quota, tokens: int, now: int, wait: nat)
    requires ValidQuota(q) && 0 <= tokens < SCALE
    requires (SCALE - tokens) * q.per <= U64_MAX
    ensures wait < RetryAfter(q, tokens) ==> !AllowedAfter(q, tokens, now, wait)
    ensures wait >= RetryAfter(q, tokens) + 1 ==> AllowedAfter(q, tokens, now, wait)
  {
    var c, need := CapacityTokens(q), (SCALE - tokens) * q.per;
    AllowedExactly(q, tokens, now, wait);
    DivIsFloor(need, c);
    MulMonotone(1, SCALE - tokens, q.per);
    if wait < RetryAfter(q, tokens) {
      if need / c >= 1 {
        MulMonotone(wait + 1, need / c, c);
        assert (wait + 1) * c == wait * c + c;
      } else {
        assert wait == 0;
      }
    } else if wait >= RetryAfter(q, tokens) + 1 {
      MulMonotone(need / c + 1, wait, c);
    }
  }

  /** Whether one later check, after a gap as long as one likes, can be allowed: exactly when
      `missing * per` fits in 64 bits. Past that the saturated refill of one gap stops short of a
      token. */
  lemma OneWaitSuffices(q: Quota, tokens: int, now: int)
    requires ValidQuota(q) && 0 <= tokens < SCALE
    ensures (exists wait: nat :: AllowedAfter(q, tokens, now, wait)) <==> (SCALE - tokens) * q.per <= U64_MAX
  {
    forall wait: nat { AllowedExactly(q, tokens, now, wait); }
    if (SCALE - tokens) * q.per <= U64_MAX {
      var wait := RetryAfter(q, tokens) + 1;
      RetryAfterIsTight(q, tokens, now, wait);
      assert AllowedAfter(q, tokens, now, wait);
    }
  }

  // ---------------------------------------------------------------------------------------
  // A key that keeps being checked
  // ---------------------------------------------------------------------------------------

  /** The answers to `n` checks, each `gap` after the one before. A refused check keeps what it
      refilled and forgets the time it could not turn into a token. */
  function Knocks(q: Quota, b: Bucket, gap: nat, n: nat): (answers: seq<Decision>)
    requires ValidQuota(q)
    ensures |answers| == n
    decreases n
  {
    if n == 0 then []
    else
      var (next, answer) := Spend(q, b, b.last + gap);
      [answer] + Knocks(q, next, gap, n - 1)
  }

  predicate SomeAllowed(answers: seq<Decision>) {
    exists i :: 0 <= i < |answers| && answers[i].Allow?
  }

  /** What one gap refills. */
  lemma GapRefills(q: Quota, b: Bucket, gap: nat)
    requires ValidQuota(q)
    ensures Refill(q, b, b.last + gap) >= 0
    ensures Refill(q, b, b.last + gap) >= 1 <==> gap * CapacityTokens(q) >= q.per
  {
    RefillBounds(q, b, b.last + gap);
    DivReaches(SaturatingMul(gap, CapacityTokens(q)), q.per, 1);
  }

  /** Gaps that refill anything at all end in an allowed check. */
  lemma {:induction false} KnocksRecover(q: Quota, b: Bucket, gap: nat) returns (n: nat)
    requires ValidQuota(q) && 0 <= b.tokens < SCALE && gap * CapacityTokens(q) >= q.per
    ensures n > 0 && Knocks(q, b, gap, n)[n - 1].Allow?
    decreases SCALE - b.tokens
  {
    GapRefills(q, b, gap);
    RefillBounds(q, b, b.last + gap);
    var (next, answer) := Spend(q, b, b.last + gap);
    if answer.Allow? {
      n := 1;
    } else {
      var m := KnocksRecover(q, next, gap);
      n := m + 1;
    }
  }

  /** Shorter gaps refill nothing, however many of them there are. */
  lemma {:induction false} KnocksStarve(q: Quota, b: Bucket, gap: nat, n: nat)
    requires ValidQuota(q) && 0 <= b.tokens < SCALE && gap * CapacityTokens(q) < q.per
    ensures !SomeAllowed(Knocks(q, b, gap, n))
    decreases n
  {
    if n > 0 {
      var (next, answer) := Spend(q, b, b.last + gap);
      GapStarves(q, b, gap);
      KnocksStarve(q, next, gap, n - 1);
      NoneBefore(answer, Knocks(q, next, gap, n - 1));
    }
  }

  lemma GapStarves(q: Quota, b: Bucket, gap: nat)
    requires ValidQuota(q) && 0 <= b.tokens < SCALE && gap * CapacityTokens(q) < q.per
    ensures Spend(q, b, b.last + gap).0 == Bucket(b.tokens, b.last + gap)
    ensures Spend(q, b, b.last + gap).1.Deny?
  {
    GapRefills(q, b, gap);
    RefillBounds(q, b, b.last + gap);
  }

  lemma NoneBefore(first: Decision, rest: seq<Decision>)
    requires first.Deny? && !SomeAllowed(rest)
    ensures !SomeAllowed([first] + rest)
  {
  }

  /** A new key is served its whole burst at once, and no more. */
  lemma {:induction false} BurstIsExact(q: Quota, left: nat, now: int, n: nat, k: nat)
    requires ValidQuota(q) && k < n && left <= q.burst
    ensures Knocks(q, Bucket(left * 1_000_000, now), 0, n)[k].Allow? <==> k < left
    decreases n
  {
    SpendAtOnce(q, left, now);
    if k > 0 {
      BurstIsExact(q, if left > 0 then left - 1 else 0, now, n - 1, k - 1);
    }
  }

  lemma SpendAtOnce(q: Quota, left: nat, now: int)
    requires ValidQuota(q) && left <= q.burst
    ensures var (b, d) := Spend(q, Bucket(left * 1_000_000, now), now);
            b == Bucket((if left > 0 then left - 1 else 0) * 1_000_000, now) && (d.Allow? <==> left > 0)
  {
    NothingRefills(q, Bucket(left * 1_000_000, now));
    assert CapacityTokens(q) == q.burst * 1_000_000;
  }

  lemma NothingRefills(q: Quota, b: Bucket)
    requires ValidQuota(q)
    ensures Refill(q, b, b.last) == 0
  {
    var none := SaturatingMul(0, CapacityTokens(q));
    assert none == 0;
    assert Refill(q, b, b.last) == none / q.per;
  }

  /** A refused key that is checked every `gap` is sooner or later allowed exactly when one gap
      refills a millionth of a token: each check restarts the clock, so knocking faster than that
      never gets in, and knocking slower always does, whatever the quota. */
  lemma KnockingGetsInExactly(q: Quota, tokens: int, now: int, gap: nat)
    requires ValidQuota(q) && 0 <= tokens < SCALE
    ensures (exists n: nat :: SomeAllowed(Knocks(q, Bucket(tokens, now), gap, n)))
       <==> gap * CapacityTokens(q) >= q.per
  {
    var b := Bucket(tokens, now);
    if gap * CapacityTokens(q) >= q.per {
      var n := KnocksRecover(q, b, gap);
      assert SomeAllowed(Knocks(q, b, gap, n));
    } else {
      forall n: nat ensures !SomeAllowed(Knocks(q, b, gap, n)) {
        KnocksStarve(q, b, gap, n);
      }
    }
  }

  /** So every refused key can get in again: a check every `per` is one way. */
  lemma SomeChecksRecover(q: Quota, tokens: int, now: int) returns (n: nat)
    requires ValidQuota(q) && 0 <= tokens < SCALE
    ensures n > 0 && Knocks(q, Bucket(tokens, now), q.per, n)[n - 1].Allow?
  {
    MulMonotone(1, CapacityTokens(q), q.per);
    n := KnocksRecover(q, Bucket(tokens, now), q.per);
  }

  /** A one-day window is a quota for which no single wait is enough once its only token is spent,
      while checks five hours apart get in at the fifth. */
  lemma DayWindowNeedsSeveralChecks(now: int, wait: nat)
    ensures var q, hours := Quota(1, 86_400_000_000_000), 18_000_000_000_000;
            && ValidQuota(q)
            && Spend(q, Bucket(SCALE, now), now) == (Bucket(0, now), Allow)
            && !AllowedAfter(q, 0, now, wait)
            && Knocks(q, Bucket(0, now), hours, 5)[4].Allow?
  {
    var q, hours := Quota(1, 86_400_000_000_000), 18_000_000_000_000;
    AllowedExactly(q, 0, now, wait);
    DayKnock(0, now);
    DayKnock(208_333, now + hours);
    DayKnock(416_666, now + 2 * hours);
    DayKnock(624_999, now + 3 * hours);
    DayKnock(833_332, now + 4 * hours);
    var b1, b2 := Bucket(208_333, now + hours), Bucket(416_666, now + 2 * hours);
    var b3, b4 := Bucket(624_999, now + 3 * hours), Bucket(833_332, now + 4 * hours);
    assert Knocks(q, b4, hours, 1)[0].Allow?;
    assert Knocks(q, b3, hours, 2)[1] == Knocks(q, b4, hours, 1)[0];
    assert Knocks(q, b2, hours, 3)[2] == Knocks(q, b3, hours, 2)[1];
    assert Knocks(q, b1, hours, 4)[3] == Knocks(q, b2, hours, 3)[2];
  }

  /** Five hours of a one-day window. */
  lemma DayKnock(tokens: int, now: int)
    requires 0 <= tokens < SCALE
    ensures var q, later := Quota(1, 86_400_000_000_000), now + 18_000_000_000_000;
            var refilled := tokens + 208_333;
            && (refilled < SCALE ==> Spend(q, Bucket(tokens, now), later).0 == Bucket(refilled, later))
            && (refilled >= SCALE ==> Spend(q, Bucket(tokens, now), later).1.Allow?)
  {
  }
}
