/** What a keepalive pass means for sessions and for the custodies it asked about: a revoked grant's
    sessions are gone for good or untouched, as the policy says, and a panicked refresh is never
    tried again. */
module RevocationPropagation {
  import opened Prelude
  import opened Custody
  import opened SessionModel
  import opened SessionStore
  import opened SessionInvariant
  import opened SessionNoResurrection
  import opened KeepaliveWorker

  // ---------------------------------------------------------------------------------------
  // Sessions
  // ---------------------------------------------------------------------------------------

  lemma CarriedKeeps(kp: K.KeepalivePolicy, s: K.Schedule, e: Entry, a: Answer)
    ensures Carried(kp, s, e, a).custody == e.custody
    ensures e.status.Tombstoned? ==> Carried(kp, s, e, a).status.Tombstoned?
    ensures Kills(kp, a) && e.custody == a.custody ==> Carried(kp, s, e, a).status.Tombstoned?
  {
  }

  lemma {:induction false} PassKeeps(kp: K.KeepalivePolicy, s: K.Schedule, entries: map<Sid, Entry>,
                                     answers: seq<Answer>, x: Sid)
    requires x in entries
    ensures x in EntriesAfter(kp, s, entries, answers)
    ensures EntriesAfter(kp, s, entries, answers)[x].custody == entries[x].custody
    decreases |answers|
  {
    if answers != [] {
      var rest := answers[..|answers| - 1];
      PassKeeps(kp, s, entries, rest, x);
      CarriedKeeps(kp, ScheduleAfter(kp, s, rest), EntriesAfter(kp, s, entries, rest)[x], answers[|answers| - 1]);
    }
  }

  /** Whatever else came in before or after, a dead grant's sessions end the pass buried. */
  lemma {:induction false} RevokedAreBuried(kp: K.KeepalivePolicy, s: K.Schedule, entries: map<Sid, Entry>,
                                            answers: seq<Answer>, k: nat, x: Sid)
    requires x in entries && k < |answers| && Kills(kp, answers[k]) && entries[x].custody == answers[k].custody
    ensures x in EntriesAfter(kp, s, entries, answers) && EntriesAfter(kp, s, entries, answers)[x].status.Tombstoned?
    decreases |answers|
  {
    var rest := answers[..|answers| - 1];
    PassKeeps(kp, s, entries, rest, x);
    if k < |answers| - 1 {
      RevokedAreBuried(kp, s, entries, rest, k, x);
    }
    CarriedKeeps(kp, ScheduleAfter(kp, s, rest), EntriesAfter(kp, s, entries, rest)[x], answers[|answers| - 1]);
  }

  /** An answer that reports the custody's grant revoked. */
  predicate Revokes(a: Answer, c: CustodyId) {
    a.custody == c && a.outcome.Permanent?
  }

  /** What one answer leaves of a session: nothing of it moves but its health, and its life if the grant was
      revoked and that kills. */
  lemma CarriedExactly(kp: K.KeepalivePolicy, s: K.Schedule, e: Entry, a: Answer)
    ensures var e' := Carried(kp, s, e, a);
            var s' := K.Recorded(kp, s, a.custody, a.outcome, a.now, a.unit);
            && e' == e.(status := e'.status, tombstonedAt := e'.tombstonedAt, currentToken := e'.currentToken,
                        custodyStatus := e'.custodyStatus)
            && (e'.status.Alive? <==> e.status.Alive? && !(Revokes(a, e.custody) && kp.onUpstreamRevoked.Kill?))
            && (e'.status == e.status ==> e'.tombstonedAt == e.tombstonedAt && e'.currentToken == e.currentToken)
            && (e'.status != e.status ==> e'.tombstonedAt == Some(a.now) && e'.currentToken.None?)
            && e'.custodyStatus == if a.custody == e.custody && a.custody in s.entries then s'.entries[a.custody].status
                                   else e.custodyStatus
  {
  }

  /** After a whole pass, exactly: a session is alive if it was and the pass did not hear, under Kill, that its
      grant is revoked; its health is what the scheduler now says of a custody it has and heard of, and
      otherwise what it was; its tokens and dates are untouched. */
  lemma {:induction false} PassIsExact(kp: K.KeepalivePolicy, s: K.Schedule, entries: map<Sid, Entry>,
                                       answers: seq<Answer>, x: Sid)
    requires x in entries
    ensures x in EntriesAfter(kp, s, entries, answers)
    ensures var (e, e', c) := (entries[x], EntriesAfter(kp, s, entries, answers)[x], entries[x].custody);
            && e' == e.(status := e'.status, tombstonedAt := e'.tombstonedAt, currentToken := e'.currentToken,
                        custodyStatus := e'.custodyStatus)
            && (e'.status.Alive? <==>
                  e.status.Alive? && !(kp.onUpstreamRevoked.Kill? && exists a :: a in answers && Revokes(a, c)))
            && (c in s.entries <==> c in ScheduleAfter(kp, s, answers).entries)
            && e'.custodyStatus == if c in Custodies(answers) && c in s.entries
                                   then ScheduleAfter(kp, s, answers).entries[c].status else e.custodyStatus
    decreases |answers|
  {
    if answers != [] {
      var rest, a := answers[..|answers| - 1], answers[|answers| - 1];
      PassIsExact(kp, s, entries, rest, x);
      CarriedExactly(kp, ScheduleAfter(kp, s, rest), EntriesAfter(kp, s, entries, rest)[x], a);
      assert answers == rest + [a];
      assert Custodies(answers) == Custodies(rest) + {a.custody};
    }
  }

  /** Revocation upstream is revocation here, for good: once a pass has heard that a grant is dead,
      no token minted for a session on it ever authenticates again, whatever operations and
      restarts follow. */
  lemma RevocationPropagates(kp: K.KeepalivePolicy, p: SessionPolicy, s: K.Schedule, y: System, answers: seq<Answer>,
                             ops: seq<Op>, s': K.Schedule, y': System, k: nat, sid: Sid, hash: TokenHash, more: seq<Op>,
                             now: Timestamp)
    requires Progress(kp, p, s, y, answers, ops, s', y') && Inv(p, y) && Forward(y.clock, answers)
    requires k < |answers| && Kills(kp, answers[k])
    requires sid in y.store.sessions && y.store.sessions[sid].custody == answers[k].custody
    requires hash in y'.ledger && y'.ledger[hash].sid == sid && ValidRun(p, y', more)
    ensures !Authenticates(p, Run(p, y', more).store, hash, now)
  {
    RevokedAreBuried(kp, s, y.store.sessions, answers, k, sid);
    LogoutIsForever(p, y', sid, hash, more, now);
  }

  /** Where a dead grant degrades its sessions instead, health is invisible to every verdict. */
  lemma CarriedIsSilent(kp: K.KeepalivePolicy, p: SessionPolicy, s: K.Schedule, e: Entry, a: Answer, hash: TokenHash,
                        now: Timestamp)
    requires kp.onUpstreamRevoked.Degrade? && p.onUpstreamRevoked.Degrade?
    ensures Classify(Carried(kp, s, e, a), hash, now, p) == Classify(e, hash, now, p)
  {
    assert SessionExpiry(Carried(kp, s, e, a), now, p) == SessionExpiry(e, now, p);
  }

  /** So no pass, whatever comes in, changes what any token resolves to at any instant. */
  lemma {:induction false} DegradeIsSilent(kp: K.KeepalivePolicy, p: SessionPolicy, s: K.Schedule, store: Store,
                                           answers: seq<Answer>, hash: TokenHash, now: Timestamp)
    requires kp.onUpstreamRevoked.Degrade? && p.onUpstreamRevoked.Degrade?
    ensures Resolve(p, Store(EntriesAfter(kp, s, store.sessions, answers), store.index), hash, now)
            == Resolve(p, store, hash, now)
    decreases |answers|
  {
    if answers != [] && hash in store.index && store.index[hash] in store.sessions {
      var sid, rest := store.index[hash], answers[..|answers| - 1];
      DegradeIsSilent(kp, p, s, store, rest, hash, now);
      PassKeeps(kp, s, store.sessions, rest, sid);
      CarriedIsSilent(kp, p, ScheduleAfter(kp, s, rest), EntriesAfter(kp, s, store.sessions, rest)[sid],
                      answers[|answers| - 1], hash, now);
    } else if answers != [] {
      EntriesKeepKeys(kp, s, store.sessions, answers);
    }
  }

  lemma {:induction false} EntriesKeepKeys(kp: K.KeepalivePolicy, s: K.Schedule, entries: map<Sid, Entry>,
                                           answers: seq<Answer>)
    ensures EntriesAfter(kp, s, entries, answers).Keys == entries.Keys
    decreases |answers|
  {
    if answers != [] {
      EntriesKeepKeys(kp, s, entries, answers[..|answers| - 1]);
    }
  }

  // ---------------------------------------------------------------------------------------
  // Custodies
  // ---------------------------------------------------------------------------------------

  /** Recording settles exactly the custodies that answered. */
  lemma {:induction false} AnswersSettle(kp: K.KeepalivePolicy, s: K.Schedule, answers: seq<Answer>, c: CustodyId)
    requires c in s.entries
    ensures var s' := ScheduleAfter(kp, s, answers);
            && c in s'.entries
            && (if c in Custodies(answers) then !s'.entries[c].refreshing else s'.entries[c] == s.entries[c])
    decreases |answers|
  {
    if answers != [] {
      var rest, a := answers[..|answers| - 1], answers[|answers| - 1];
      AnswersSettle(kp, s, rest, c);
      assert answers == rest + [a];
      assert Custodies(answers) == Custodies(rest) + {a.custody};
    }
  }

  /** After a pass, of the custodies it asked about exactly those whose refresh panicked are still
      marked in flight. */
  lemma PanickedStayInFlight(kp: K.KeepalivePolicy, s: K.Schedule, now: Timestamp,
                             outcomes: map<CustodyId, K.RefreshOutcome>, answers: seq<Answer>, c: CustodyId)
    requires K.Agrees(s) && c in K.TakeDue(s, now).1 && Joined(K.TakeDue(s, now).1, outcomes, answers)
    ensures var s' := ScheduleAfter(kp, K.TakeDue(s, now).0, answers);
            c in s'.entries && (s'.entries[c].refreshing <==> c !in outcomes)
  {
    K.DueSetIsExact(s, now);
    AnswersSettle(kp, K.TakeDue(s, now).0, answers, c);
  }

  /** The operation puts nothing new on record about the custody. */
  predicate LeavesAlone(op: K.Op, c: CustodyId) {
    op.Take? || op.c != c
  }

  lemma TakeLeavesFlying(s: K.Schedule, now: Timestamp, c: CustodyId)
    requires K.Agrees(s) && c in s.entries && s.entries[c].refreshing
    ensures c !in K.TakeDue(s, now).1
    ensures c in K.TakeDue(s, now).0.entries && K.TakeDue(s, now).0.entries[c].refreshing
  {
    K.DueSetIsExact(s, now);
  }

  /** And such a custody is never dispatched again, however long it is overdue, until something
      registers it anew: the scheduler itself never retries a refresh that panicked. */
  lemma {:induction false} InFlightIsStranded(kp: K.KeepalivePolicy, s: K.Schedule, ops: seq<K.Op>, c: CustodyId,
                                              now: Timestamp)
    requires K.Agrees(s) && c in s.entries && s.entries[c].refreshing
    requires forall op :: op in ops ==> LeavesAlone(op, c)
    ensures c !in K.TakeDue(K.Run(kp, s, ops), now).1
    decreases |ops|
  {
    if ops == [] {
      TakeLeavesFlying(s, now, c);
    } else {
      assert ops[0] in ops && LeavesAlone(ops[0], c);
      assert forall op :: op in ops[1..] ==> op in ops;
      K.ApplyAgrees(kp, s, ops[0]);
      if ops[0].Take? {
        TakeLeavesFlying(s, ops[0].now, c);
      }
      InFlightIsStranded(kp, K.Apply(kp, s, ops[0]), ops[1..], c, now);
    }
  }
}
