# session-broker, modelled and proved

`session-broker` keeps browser sessions in front of an OAuth provider. Its hard logic sits in small
cores driven by an explicit `now`. This project models six of them in Dafny and proves what they are
for. `dafny verify dfyconfig.toml` checks everything.

## The parts

**Session state machine** (`Session*.dfy`). A token index in front of per-session entries; each entry
holds overlapping generations under a cap, a bounded memory of retired hashes, coalescing, a sliding
idle expiry, tombstones. Every change emits durable commands, and a boot replays their tables.

- `SessionModel` and `SessionStore` say what each operation does, as values: `System` is the map, the
  command log, and the history nothing may contradict (every generation ever minted, what the cap
  evicted, which custodies died). `Step` and `Run` are the operations, a boot among them.
- `SessionEntries` and `SessionMaps` are the entry and the map as the program has them: classes whose
  fields and loops change in place, each method proved to move `history` by the step it stands for.
- `SessionInvariant`, `SessionRun`, `SessionSteps` and `SessionRestart` prove the whole-system
  invariant over every run, and with it what a restart shows and hides. `SessionBoot` is the boot loop.
- `SessionHistory` tells a session by what was done to it and nothing else, and proves every row, every
  generation and every entry to be what that history says. `SessionVerdicts` reads every verdict and
  every answer off it, `SessionLinger` how long a session that is over goes on answering.
- `SessionNoResurrection`: what died stays dead. `SessionIdeal`, `SessionNeverForget` and
  `SessionCap`: reaping is only an optimisation, and exactly when. `SessionRestartCap` and
  `SessionRestartExact`: how many restarts that survives. `SessionRace`: concurrent refreshes of one
  cookie.
- `SessionConcurrent`: the map at the granularity of its locks, and `SessionRaceSettled` the race in
  it. `SessionOvertaking` and `SessionOvertakingTables`: the commands on their way to the writer, and
  when replay still matches.

**Keepalive** (`Scheduler`, `SchedulerHistory`, `KeepaliveWorker`, `RevocationPropagation`): a heap
with lazily deleted items that must agree with a map, what a custody's state is from what was said of
it, the pass that asks upstream, and what its answers do to sessions.
**Signing keys** (`Issuer`): key state derived from three timestamps, never stored. **Rate limiting**
(`RateLimit`): fixed-point token buckets in a bounded table. **Audit** (`Audit`): a lossy queue that
says where and how much it lost. **Dates** (`CivilDate`): the HTTP date.

A hash stands for its token; new hashes and session ids are fresh. Clock readings, jitter draws and
upstream outcomes are inputs. Times are unbounded integers; the limiter's 64-bit saturation, the
backoff's saturation and every floor are written out.

## What turned out otherwise

Where the code and its documentation disagree the model follows the code.

- The cap evicts nothing inside its window exactly when min(gen TTL, coalesce + grace) is at most
  cap * coalesce (`SessionCap.ForgetsNothingExactly`). The defaults satisfy it; nothing validates it.
  A restart drops the plaintext that coalescing needs and so lets one mint come early: with restarts
  the cap loses one generation to each, and the defaults bear one restart, not two
  (`SessionRestartExact.DefaultBearsOneRestart`). What the cap evicted early, a restart may serve
  again (`SessionRestart.EvictionComesBack`).
- Commands are handed to the writer after the entry's lock is let go. When a mint overtakes the one
  before it, the supersession of the row not there yet is lost, and a boot from those tables would
  take the old generation for one never superseded (`SessionOvertaking.OvertakenMint`).
- `keepalive.rs:432-434` says a custody whose refresh panicked stays scheduled and is retried. It
  stays marked in flight, and is never dispatched again (`RevocationPropagation.InFlightIsStranded`).
- `keepalive.rs:172-180` says the stored `fail_count` comes back at boot. It is reset to zero.
- A session dead under Kill is kept for its grace counted from its idle end, which may be far off; with
  a grace of zero it is forgotten at once instead (`SessionLinger.SweepForgetsExactly`). A boot forgets
  logged-out sessions at once (`SessionLinger.NeverForgottenEarly`).
- A `Retry-After` of zero is not floored to a second (`Scheduler.SpinsExactly`).
- `http_date` prints the year unpadded, so before year 1000 and after 9999 the string is not an
  IMF-fixdate (`CivilDate.FixdateExactly`).
- The limiter multiplies in saturating 64 bits, and a refused check restarts the clock. For a window
  above about five hours no single wait, however long, need be enough (`RateLimit.OneWaitSuffices`,
  `RateLimit.DayWindowNeedsSeveralChecks`); several checks are (`RateLimit.SomeChecksRecover`). And a
  key knocking faster than a millionth of a token refills keeps itself out
  (`RateLimit.KnockingGetsInExactly`).

## Model

| member | source | states |
|---|---|---|
| `SessionRestart.RunKeeps` | repo/crates/session-broker/src/session.rs:535-934 | over any valid run from a state in order, with restarts anywhere: every entry is in order, the index is exact, and the tables built by the emitted commands agree with memory |
| `SessionRun.CreateKeeps` | repo/crates/session-broker/src/session.rs:535-602 | creating a session keeps the whole-system invariant |
| `SessionSteps.RefreshKeeps` | repo/crates/session-broker/src/session.rs:702-764 | a refresh, whether it mints, coalesces or is refused, keeps it |
| `SessionSteps.TombstoneKeeps` | repo/crates/session-broker/src/session.rs:809-823 | so does a logout |
| `SessionSteps.SetCustodyKeeps` | repo/crates/session-broker/src/session.rs:873-894 | so does a health report |
| `SessionSteps.ReapKeeps` | repo/crates/session-broker/src/session.rs:898-921 | so does the sweep at an entry that lives on |
| `SessionSteps.CollectKeeps` | repo/crates/session-broker/src/session.rs:923-932 | so does the sweep removing one; what it forgets was over |
| `SessionRestart.BootKeeps` | repo/crates/session-broker/src/session.rs:626-659 | so does a boot from the tables alone |
| `SessionModel.ReapKeepsCurrent` | repo/crates/session-broker/src/session.rs:409-436 | reaping never drops the current generation |
| `SessionEntryFacts.ReapKeepsOk` | repo/crates/session-broker/src/session.rs:412-445 | reaping keeps generations a strictly numbered ladder whose last rung alone is not superseded, hashes distinct and disjoint from the retired memory, the memory bounded |
| `SessionEntryFacts.ReapPurges` | repo/crates/session-broker/src/session.rs:412-454 | reaping changes the hashes a session claims by exactly the purged ones |
| `SessionEntryFacts.LeavingWasExpiredOrCapped` | repo/crates/session-broker/src/session.rs:417-433 | only a superseded generation leaves, and it had expired or the cap pushed it out |
| `SessionEntryFacts.MintFacts` | repo/crates/session-broker/src/session.rs:383-407 | minting keeps the entry in order; its hashes gain exactly the new one and lose exactly the purged |
| `SessionHistory.RunTold` | repo/crates/session-broker/src/session.rs:535-934 | over any run with restarts, every session row, every generation ever minted with its number and dates, and the health and plaintext in memory are exactly what follows from when the session was created, minted, last used, logged out, last reported on and last booted |
| `SessionVerdicts.RunIsTold` | repo/crates/session-broker/src/session.rs:535-934 | and so is every run from an empty map |
| `SessionHistory.MintTold` | repo/crates/session-broker/src/session.rs:383-407 | a mint numbers its generation next, dates it now and now plus the TTL, and supersedes the newest one now, and no other |
| `SessionVerdicts.VerdictIsTold` | repo/crates/session-broker/src/session.rs:304-363 | every verdict on an indexed token, from that history alone: logged out, then past the absolute end, then idled out, then revoked where that kills; otherwise active inside its own window, refreshable if newest, retired if not; a token not indexed is unknown |
| `SessionVerdicts.RefreshAnswers` | repo/crates/session-broker/src/session.rs:702-764 | a served refresh hands out the newest token with its subject, session, number, health and three dates, all as that history gives them, minting exactly if the newest is not in hand or is older than the coalescing window; a refusal says what the verdict was |
| `SessionVerdicts.RefreshKeepsPromise` | repo/crates/session-broker/src/session.rs:365-376 | the meta is honest: untouched, the token is active exactly until active_until, refreshable until refresh_until, idle from then, and past its absolute end exactly from absolute_until |
| `SessionVerdicts.CreateKeepsPromise` | repo/crates/session-broker/src/session.rs:535-602 | and so is the meta of a new session, whose dates are spelled out |
| `SessionLinger.SweepForgetsExactly` | repo/crates/session-broker/src/session.rs:898-932 | a sweep that comes to a session removes it if and only if it was logged out a grace ago, or its idle end is a grace ago, or it is dead under Kill and there is no grace |
| `SessionLinger.NeverForgottenEarly` | repo/crates/session-broker/src/session.rs:898-932 | over any run no session leaves memory earlier, except that a boot leaves logged-out ones behind; until then its newest token leads to it and every token that does gets its verdict |
| `SessionLinger.LogoutLingers` | repo/crates/session-broker/src/session.rs:800-803 | a logged-out session answers its indexed tokens with exactly that until its grace is over, over any run without a boot |
| `SessionLinger.ExpiredLingers` | repo/crates/session-broker/src/session.rs:908-911 | one past its dates, or dead under Kill, answers with the reason until its grace is over |
| `SessionRestart.IndexIsExact` | repo/crates/session-broker/src/session.rs:766-792 | in every reachable state a hash is indexed to a session exactly if that session has it among its generations or its retired memory |
| `SessionRestart.RowsAreExact` | repo/crates/session-broker/src/session.rs:749-792 | replaying the commands gives, for each live session, its row at its current generation and idle expiry, and exactly the rows of its generations and its retired memory, each with the dates it was minted and superseded at |
| `SessionRestart.RestartPreserves` | repo/crates/session-broker/src/session.rs:604-659 | every Active and every refreshable verdict is the same after a restart, at every instant |
| `SessionRestart.RestartRevivesNothing` | repo/crates/session-broker/src/session.rs:604-659 | what authenticates after a restart is, without exception, inside its own window in a living session not idled out; and it authenticated before, unless the cap had evicted it or its custody's death under Kill had ended the session |
| `SessionRestart.RebootedExactly` | repo/crates/session-broker/src/session.rs:626-659 | a token authenticates after a restart if and only if its row and its session's row say so: row present, session alive and not idled out, inside the generation's window |
| `SessionRestart.RetiredComesBackExactly` | repo/crates/session-broker/src/session.rs:604-659 | a retired token, which authenticates nowhere, comes back with a restart if and only if its window has not passed and its session is in use |
| `SessionRestart.EvictionComesBack` | repo/crates/session-broker/src/session.rs:427-433 | so what the cap has just evicted and still remembers is refused, and served again after a restart |
| `SessionRestart.RestartVerdict` | repo/crates/session-broker/src/session.rs:604-659 | where neither intervened, the whole verdict is preserved, except that a logged-out session becomes unknown and a forgotten one may be remembered as expired |
| `SessionNoResurrection.NoResurrection` | repo/crates/session-broker/src/session.rs:304-381 | a minted token that once fails to authenticate never authenticates again over any run of creates, refreshes, logouts, sweeps and health reports in which no dead custody is revived under Kill |
| `SessionNoResurrection.CeilingHolds` | repo/crates/session-broker/src/session.rs:535-570 | no token authenticates at or after its session's creation plus the absolute TTL, refreshes and restarts included |
| `SessionNoResurrection.LogoutIsForever` | repo/crates/session-broker/src/session.rs:799-842 | once a session is tombstoned no token minted for it authenticates again, across any operations and any restarts |
| `SessionNoResurrection.ExpiryIsForever` | repo/crates/session-broker/src/session.rs:304-381 | a token past its generation's recorded window authenticates at no later instant, across any operations and any restarts, evictions and revivals included |
| `SessionNeverForget.NeverForgets` | repo/crates/session-broker/src/session.rs:383-445 | when min(gen TTL, coalesce + grace) <= cap * coalesce, over every run without a restart the cap evicts nothing inside its window and every token authenticates, or is refreshable, exactly as in a machine that keeps every generation and session forever |
| `SessionIdeal.GraceBoundIsEnough` | repo/crates/session-broker/src/session.rs:32-52 | grace <= (cap - 1) * coalesce implies that condition |
| `SessionIdeal.RefreshMirrors` | repo/crates/session-broker/src/session.rs:702-764 | a refresh of an entry and of its unreaped ideal return the same credential and meta, or are both refused |
| `SessionIdeal.FrontHasRunOut` | repo/crates/session-broker/src/session.rs:427-433 | the oldest of more generations than the cap has run out by the time the newest is minted |
| `SessionCap.ForgetsNothingExactly` | repo/crates/session-broker/src/session.rs:427-433 | the condition is exact: forgetting is unobservable if and only if it holds, for every policy whose sessions live long enough to reach the cap |
| `SessionCap.NarrowCapForgets` | repo/crates/session-broker/src/session.rs:427-433 | otherwise a concrete run in which an evicted token is refused while it should still authenticate |
| `SessionRestartCap.RestartsEvictNothing` | repo/crates/session-broker/src/session.rs:604-659 | over any run with restarts, as long as min(gen TTL, coalesce + grace) <= (cap - restarts) * coalesce, or windows are empty, the cap evicts nothing inside its window |
| `SessionRestartCap.RestartsAreInvisible` | repo/crates/session-broker/src/session.rs:604-659 | and every verdict carries over the next boot, wherever no death under Kill intervened |
| `SessionRestartExact.BearsRestartsExactly` | repo/crates/session-broker/src/session.rs:427-433 | the condition is exact for any number of restarts: in no run with at most that many does the cap evict inside a window, if and only if it holds, for every policy whose sessions live long enough to reach the cap |
| `SessionRestartExact.TooManyRestartsEvict` | repo/crates/session-broker/src/session.rs:427-433 | otherwise a concrete run, restarting before each early mint, in which it does |
| `SessionRestartExact.DefaultBearsOneRestart` | repo/crates/session-broker/src/session.rs:32-52 | the shipped tunables bear one restart in any run, and not two |
| `SessionRace.RefreshRace` | repo/crates/session-broker/src/session.rs:702-764 | any number of refreshes of the newest Active cookie, in any lock order and with readings in any order within a window narrower than coalesce, grace and idle TTL: at the entry, all are served with a token Active at the caller's own reading, and at most one mints |
| `SessionRace.SecondSurvives` | repo/crates/session-broker/src/session.rs:427-433 | with room for two, the generation just superseded is not the one the cap drops |
| `SessionRaceSettled.RaceIsHonoured` | repo/crates/session-broker/src/session.rs:702-792 | the same through the index: in any interleaving of locked halves and index updates, from any map a run can come to, each token handed out resolves as Active at its caller's reading once the threads have settled |
| `SessionConcurrent.IndexSafety` | repo/crates/session-broker/src/session.rs:702-792 | from any map a run can come to, booted ones included, in every interleaving of locked halves and index updates: an index entry points only at the session its hash was minted for, a claimed hash is indexed or in some thread's unapplied effects, and no thread is about to remove a claimed hash |
| `SessionConcurrent.VerdictIsTheOwners` | repo/crates/session-broker/src/session.rs:674-682 | from any such map, a lookup followed later by the entry lock never authenticates a token against another session |
| `SessionConcurrent.EveryInterleavingIsSafe` | repo/crates/session-broker/src/session.rs:898-934 | the invariant behind these, kept by create, refresh, sweep, tombstone, removal and each single index update |
| `SessionConcurrent.AtRestIsSafe` | repo/crates/session-broker/src/session.rs:626-659 | every state in order, a freshly booted one included, starts out safe |
| `SessionConcurrent.QuietIsIndexed` | repo/crates/session-broker/src/session.rs:766-792 | once the threads have settled, every hash a session claims leads to it |
| `SessionOvertaking.EverythingArrives` | repo/crates/session-broker/src/session.rs:771-798 | threads that hand their commands over after letting go of the entry: in any interleaving the writer gets each decided command, once |
| `SessionOvertaking.RowMatchesExactly` | repo/crates/session-broker/src/store/writer.rs:541-558 | after any run handed over in any interleaving, a generation's row is the one memory stands for if and only if its insertion arrived before its deletion or, while it has none, before its supersession |
| `SessionOvertakingTables.SessionMatchesExactly` | repo/crates/session-broker/src/store/writer.rs:528-540 | a session's row is if and only if, of what arrived since its insertion, the last slide says what the one decided last says and the first logout is the one decided first |
| `SessionOvertakingTables.TablesMatchExactly` | repo/crates/session-broker/src/store/writer.rs:504-558 | and so replay still matches memory, both tables whole, if and only if that holds of every row |
| `SessionOvertaking.OvertakenMint` | repo/crates/session-broker/src/session.rs:749-792 | of any two consecutive mints of a session, in whatever run, the second may arrive first: the supersession is lost, and the old row stands as not superseded |
| `SessionEntries.SessionEntry.Retire` | repo/crates/session-broker/src/session.rs:438-445 | in place: the hash is remembered last, and the oldest beyond the memory are purged in order |
| `SessionEntries.SessionEntry.ReapGenerations` | repo/crates/session-broker/src/session.rs:412-436 | in place, both loops: exactly the specified reaping |
| `SessionEntries.SessionEntry.Mint` | repo/crates/session-broker/src/session.rs:383-407 | in place: exactly the specified minting, and its effects |
| `SessionEntries.SessionEntry.RefreshLocked` | repo/crates/session-broker/src/session.rs:714-747 | in place: what a refresh decides, changes and answers under the lock; the meta it answers is read off the entry field by field |
| `SessionEntries.RetireOneMore` | repo/crates/session-broker/src/session.rs:438-445 | retiring one at a time is retiring the batch: what is remembered and what is purged, in order |
| `SessionMaps.SessionMap.Create` | repo/crates/session-broker/src/session.rs:535-602 | the map moves by exactly the create step: entry, index, session command before generation command; the meta returned is spelled out date by date |
| `SessionMaps.SessionMap.Apply` | repo/crates/session-broker/src/session.rs:771-792 | index and log move together by exactly the effects, purge by purge |
| `SessionMaps.SessionMap.ResolveAt` | repo/crates/session-broker/src/session.rs:674-682 | the answer of the specified resolution |
| `SessionMaps.SessionMap.RefreshAt` | repo/crates/session-broker/src/session.rs:702-764 | the map moves by exactly the refresh step and answers what it specifies, the meta read off the entry it leaves |
| `SessionMaps.SessionMap.Tombstone` | repo/crates/session-broker/src/session.rs:809-842 | the map moves by exactly the logout step; true exactly if the session was there and alive |
| `SessionMaps.SessionMap.TombstoneByCustody` | repo/crates/session-broker/src/session.rs:859-869 | exactly the living sessions of the custody are buried, one command each, and counted |
| `SessionMaps.SessionMap.SetCustodyStatus` | repo/crates/session-broker/src/session.rs:873-894 | exactly the sessions of the custody change health, and are counted |
| `SessionMaps.SessionMap.Sweep` | repo/crates/session-broker/src/session.rs:898-934 | a run of one reap per session and one removal per removed session, in some iteration order; exactly the sessions past their dates or logged out, and a grace past that, are gone; both returned counts are the specified ones |
| `SessionMaps.SessionMap.RehydrateSession` | repo/crates/session-broker/src/session.rs:626-659 | generations sorted by number, all indexed, the entry seated without plaintext; false exactly if there were none |
| `SessionMaps.SessionMap.RehydrateSessions` | repo/crates/session-broker/src/main.rs:687-727 | the boot loop over the rows, in any order, builds exactly the map a boot stands for |
| `SessionBoot.AllBooted` | repo/crates/session-broker/src/store/repo.rs:2090-2153 | visiting every alive session with a generation row brings back the whole boot state |
| `SessionBoot.SortByNumber` | repo/crates/session-broker/src/session.rs:630-631 | the rows of a session, each number once, in ascending order |
| `SessionStore.ReplayAppends` | repo/crates/session-broker/src/store/writer.rs:504-558 | the tables after a longer log are the tables so far with the rest executed in order |
| `Scheduler.DueSetIsExact` | repo/crates/session-broker/src/keepalive.rs:208-232 | take_due returns, each once and in heap order, exactly the custodies due, not in flight and not dead, despite stale and orphaned heap items; heap and map still agree |
| `Scheduler.ApplyAgrees` | repo/crates/session-broker/src/keepalive.rs:151-287 | every operation keeps a heap item at its next refresh for every custody neither in flight nor dead |
| `Scheduler.NeverStarved` | repo/crates/session-broker/src/keepalive.rs:208-232 | after any run, a custody is taken at an instant exactly if it is registered, due, not in flight and not dead |
| `Scheduler.SingleFlight` | repo/crates/session-broker/src/keepalive.rs:208-232 | no custody is dispatched again before its result is recorded |
| `Scheduler.DeadIsFinal` | repo/crates/session-broker/src/keepalive.rs:270-279 | after a permanent failure a custody is never dispatched again and stays dead |
| `SchedulerHistory.StatusIsAsSaid` | repo/crates/session-broker/src/keepalive.rs:250-281 | over every proper run a custody is dead exactly if it was restored dead or a permanent failure was reported; otherwise degraded exactly if its last report was a transient failure at or past the expiry it had been given, or it was restored degraded and nothing since; otherwise well |
| `SchedulerHistory.TakenAsSaid` | repo/crates/session-broker/src/keepalive.rs:208-281 | and it is taken exactly if it is not in flight, was never said dead, and the date that follows from the last thing said of it, counting failures in a row, has come |
| `SchedulerHistory.TransientIsRetried` | repo/crates/session-broker/src/keepalive.rs:256-273 | a custody whose last report was transient is in the due set of any take from the maximum backoff on |
| `Scheduler.Scheduler.Take` | repo/crates/session-broker/src/keepalive.rs:208-232 | the popping loop computes exactly the specified due set and state |
| `Scheduler.Scheduler.Record` | repo/crates/session-broker/src/keepalive.rs:241-287 | the state after a result is the specified one, which SchedulerHistory proves from the trace, and its status is returned |
| `Scheduler.RefreshIsInTime` | repo/crates/session-broker/src/keepalive.rs:289-303 | a refresh is scheduled at least a second out and, when (1 + jitter) * lead <= 1, no later than the token's expiry |
| `Scheduler.RefreshIsJittered` | repo/crates/session-broker/src/keepalive.rs:290-303 | the delay is the lead at the middle draw, the lead less the jitter at the lowest, monotone in the draw and within the jitter but for the one-second floor |
| `Scheduler.CurveDoubles` | repo/crates/session-broker/src/keepalive.rs:316-319 | backoff starts at the base and doubles with each failure, up to the maximum or sixteen failures |
| `Scheduler.BackoffIsFullJitter` | repo/crates/session-broker/src/keepalive.rs:320-322 | every whole second below the curve is the delay for some draw |
| `Scheduler.BackoffGrows` | repo/crates/session-broker/src/keepalive.rs:320-322 | a second at the lowest draw, and no shorter for a higher draw |
| `Scheduler.RetryAfterIsKept` | repo/crates/session-broker/src/keepalive.rs:313-315 | what upstream asks for is kept to, up to the maximum |
| `Scheduler.BackoffIsCapped` | repo/crates/session-broker/src/keepalive.rs:305-323 | backoff never exceeds the maximum, but for the one-second floor |
| `Scheduler.SpinsExactly` | repo/crates/session-broker/src/keepalive.rs:305-323 | a failing custody is put off into the future exactly unless upstream says to retry after zero seconds or the maximum is zero |
| `Scheduler.SpreadIsEven` | repo/crates/session-broker/src/main.rs:735-763 | at most ceil(n / 30) overdue custodies share any one second after a restart |
| `Scheduler.SpreadIsOrdered` | repo/crates/session-broker/src/main.rs:735-763 | overdue custodies are spread in row order within 30 seconds of the restart |
| `Scheduler.SpreadIsExact` | repo/crates/session-broker/src/main.rs:735-763 | a custody not overdue keeps its stored refresh; the i-th of n, if overdue, comes due at its share of thirty seconds |
| `Scheduler.RestoredSchedule` | repo/crates/session-broker/src/main.rs:735-763 | each restored custody ends with its row's status and its spread or stored refresh |
| `KeepaliveWorker.Worker.Handle` | repo/crates/session-broker/src/keepalive.rs:438-502 | one answer: recorded, its health carried to exactly the custody's sessions, and under Kill a permanent one buries exactly the living ones, whose number is returned |
| `KeepaliveWorker.Worker.Tick` | repo/crates/session-broker/src/keepalive.rs:406-506 | one pass: exactly the due custodies are asked, batch by batch; each that did not panic is recorded once under its own reading, the answers of one batch before those of the next; scheduler and session map end as those answers specify |
| `KeepaliveWorker.ChunksAreExact` | repo/crates/session-broker/src/keepalive.rs:406-430 | the batches are what is due, in order, none larger than max_concurrent and all full but the last |
| `KeepaliveWorker.BatchesJoin` | repo/crates/session-broker/src/keepalive.rs:431-436 | answers joined batch by batch, each batch in any order, answer everything that was due, each custody once |
| `KeepaliveWorker.MoreProgress` | repo/crates/session-broker/src/keepalive.rs:431-503 | handling one more answer extends the pass by exactly that answer, and keeps the session invariant while the clock runs forward |
| `RevocationPropagation.RevokedAreBuried` | repo/crates/session-broker/src/keepalive.rs:474-481 | whatever else a pass hears, every session on a custody reported dead under Kill ends it buried |
| `RevocationPropagation.PassIsExact` | repo/crates/session-broker/src/keepalive.rs:438-502 | after a whole pass a session is alive exactly if it was and the pass did not hear, under Kill, that its grant is revoked; its health is what the scheduler now says of a custody that answered; nothing else of it moved |
| `RevocationPropagation.RevocationPropagates` | repo/crates/session-broker/src/keepalive.rs:474-481 | and none of its tokens ever authenticates again, whatever operations and restarts follow |
| `RevocationPropagation.DegradeIsSilent` | repo/crates/session-broker/src/keepalive.rs:459-473 | under Degrade no pass, whatever comes in, changes what any token resolves to at any instant |
| `RevocationPropagation.PanickedStayInFlight` | repo/crates/session-broker/src/keepalive.rs:431-436 | of the custodies a pass asked about, exactly those whose refresh panicked stay marked in flight |
| `RevocationPropagation.InFlightIsStranded` | repo/crates/session-broker/src/keepalive.rs:221-226 | and such a custody is never dispatched again until something registers it anew |
| `Issuer.NoOrphanedToken` | repo/crates/session-broker/src/issuer/mod.rs:355-408 | over any history of prunes and rotations, each asking for a lead above zero or left to a policy lead above zero, the key that signs a token expiring by t + max_ttl is in the JWK Set from the instant the key was created through the expiry plus the verifiers' allowance |
| `Issuer.MachineTokenIsNotOrphaned` | repo/crates/session-broker/src/http/token.rs:430-450 | the same, from creation on, for any lifetime a machine caller can ask for |
| `Issuer.UserTokenIsNotOrphaned` | repo/crates/session-broker/src/http/user_token.rs:291-301 | the same, from creation on, for a user token cut short by its session |
| `Issuer.MachineLifetimeIsExact` | repo/crates/session-broker/src/http/token.rs:428-438 | what a machine caller asks for is granted as asked or refused exactly if it is over the principal's or the issuer's maximum; unasked, the default held to both |
| `Issuer.UserTokenEndsWithSession` | repo/crates/session-broker/src/http/user_token.rs:289-292 | a user token ends no later than its session's idle expiry and the user lifetime, and at one of the two |
| `Issuer.NoSigningGap` | repo/crates/session-broker/src/issuer/mod.rs:152-181 | after bootstrap, any rotations and prunes leave exactly one open-ended key, insertion order equal to activation order among keys not cut while pending, and a signer at every later instant |
| `Issuer.RotateKeepsOrder` | repo/crates/session-broker/src/store/repo.rs:509-529 | one rotation keeps that order |
| `Issuer.RotateCovers` | repo/crates/session-broker/src/store/repo.rs:509-529 | one rotation leaves a signer at every later instant |
| `Issuer.PruneKeeps` | repo/crates/session-broker/src/store/repo.rs:570-597 | a prune takes no key that could still sign |
| `Issuer.EmergencyUnpublishes` | repo/crates/session-broker/src/issuer/mod.rs:361-375 | a zero-lead rotation unpublishes every older key at once and signs with the new one |
| `Issuer.RotationIsExact` | repo/crates/session-broker/src/store/repo.rs:509-529 | what a rotation does to each older key at every later instant: published while it was and for a token lifetime and 300 seconds past the new activation, at once gone if pending past it or if there is no lead; the new key is published at once and eligible from now plus what was asked, or the policy's lead |
| `Issuer.PruneIsSilent` | repo/crates/session-broker/src/store/repo.rs:570-597 | a prune changes nothing that is published at any later instant |
| `Issuer.SignerIsExact` | repo/crates/session-broker/src/issuer/keys.rs:94-99 | the signer is a usable, activated, published row, with none such activated or made after it; none signs exactly if there is none |
| `Issuer.CacheSignsNewest` | repo/crates/session-broker/src/issuer/keys.rs:94-99 | the cache signs with the eligible key inserted last |
| `Issuer.JwksIsPublished` | repo/crates/session-broker/src/issuer/keys.rs:111-116 | the JWK Set lists exactly the published keys |
| `Issuer.Issuer.Rotate` | repo/crates/session-broker/src/issuer/mod.rs:355-408 | the rows and the reloaded cache after a rotation; the new key activates after what was asked for, or the policy's lead where nothing was, and the returned dates are spelled out |
| `Issuer.Issuer.PruneRetired` | repo/crates/session-broker/src/issuer/mod.rs:415-459 | exactly the rows past their end become removed, now, and their number is returned |
| `Issuer.Issuer.SignWithKid` | repo/crates/session-broker/src/issuer/mod.rs:253-258 | signs with the specified key, or reports that there is none |
| `RateLimit.AdmissionBound` | repo/crates/session-broker/src/ratelimit.rs:136-195 | in any window of length W of any run a key is allowed at most burst + W * burst / per times, across evictions and re-creations |
| `RateLimit.BoundedRefinesUnbounded` | repo/crates/session-broker/src/ratelimit.rs:136-195 | every Allow and every decision for a tracked key is that of a limiter without capacity; the only other outcome is a capacity refusal of an untracked key |
| `RateLimit.TableIsBounded` | repo/crates/session-broker/src/ratelimit.rs:172-189 | the table never exceeds its capacity |
| `RateLimit.RefusedExactly` | repo/crates/session-broker/src/ratelimit.rs:165-195 | an untracked key is refused, for the whole window, exactly if as many keys as the table holds have not refilled; otherwise it is allowed and tracked with one token less than the burst |
| `RateLimit.BurstIsExact` | repo/crates/session-broker/src/ratelimit.rs:143-163 | checks at one instant are allowed exactly as many times as there are whole tokens |
| `RateLimit.AllowedExactly` | repo/crates/session-broker/src/ratelimit.rs:145-163 | the exact waiting time after a refusal, saturation included |
| `RateLimit.RetryAfterIsTight` | repo/crates/session-broker/src/ratelimit.rs:148-163 | without saturation, sooner than retry_after is denied and one nanosecond past it is allowed |
| `RateLimit.OneWaitSuffices` | repo/crates/session-broker/src/ratelimit.rs:145-163 | one later check can be allowed, however long the wait before it, if and only if the missing refill times the window fits in 64 bits |
| `RateLimit.KnockingGetsInExactly` | repo/crates/session-broker/src/ratelimit.rs:145-163 | a refused key checked every gap is sooner or later allowed if and only if one gap refills a millionth of a token |
| `RateLimit.SomeChecksRecover` | repo/crates/session-broker/src/ratelimit.rs:145-163 | for every quota some finite sequence of checks ends in Allow |
| `RateLimit.DayWindowNeedsSeveralChecks` | repo/crates/session-broker/src/ratelimit.rs:145-163 | a one-day window is a quota for which no single wait is enough, while checks five hours apart get in at the fifth |
| `RateLimit.Limiter.CheckAt` | repo/crates/session-broker/src/ratelimit.rs:136-195 | the table and the decision after a check are exactly the specified ones |
| `Audit.PositionalGaps` | repo/crates/session-broker/src/audit.rs:332-367 | for every run of records and drains, rows in order with each gap expanded, then the pending gap, are exactly the sequence of record calls; depth never exceeds capacity + 1 |
| `Audit.TrueIndex` | repo/crates/session-broker/src/audit.rs:332-367 | every accepted event stands at its true index among the calls |
| `Audit.EveryInterleavingConserves` | repo/crates/session-broker/src/audit.rs:332-367 | with any number of recording threads interleaved at their atomics, every event is written or counted lost once, and depth stays within capacity plus twice the threads |
| `Audit.SuppressedHasARow` | repo/crates/session-broker/src/audit.rs:404-426 | an exchange is suppressed only when one for the same pair was recorded inside the window |
| `Audit.SuppressedExactly` | repo/crates/session-broker/src/audit.rs:404-426 | and exactly then: coalescing is on, and the last recorded exchange of the pair is inside the window and was not forgotten since, as happens only when the memory is full |
| `Audit.SeenIsBounded` | repo/crates/session-broker/src/audit.rs:404-426 | the coalescing memory never outgrows its limit |
| `Audit.AuditSink.RecordEvent` | repo/crates/session-broker/src/audit.rs:332-367 | queue, depth and pending gap after a record are exactly the specified ones |
| `CivilDate.FieldsAreExact` | repo/crates/session-broker/src/http/wellknown.rs:123-149 | for every epoch second the computed fields are a valid proleptic Gregorian date-time, on the weekday of that date, counting back year by year to the same second |
| `CivilDate.FieldsInvertEpoch` | repo/crates/session-broker/src/http/wellknown.rs:123-149 | and every valid date-time, weekday included, is the one computed from its own epoch second |
| `CivilDate.NextDayIsSuccessor` | repo/crates/session-broker/src/http/wellknown.rs:123-149 | the next day is the calendar successor, leap centuries included |
| `CivilDate.Tomorrow` | repo/crates/session-broker/src/http/wellknown.rs:123-149 | a day later the date is the successor, the weekday the next modulo 7, the time of day the same |
| `CivilDate.HttpDateReadsBack` | repo/crates/session-broker/src/http/wellknown.rs:123-149 | the rendered string, its names read by the grammar, reads back as the same epoch second |
| `CivilDate.MonthIsNamed` | repo/crates/session-broker/src/http/wellknown.rs:126-128 | columns 8 to 10 are Jan exactly if the month is 1, and so on for all twelve |
| `CivilDate.WeekdayIsNamed` | repo/crates/session-broker/src/http/wellknown.rs:125-125 | columns 0 to 2 are Sun exactly if the weekday is 0, and so on for all seven |
| `CivilDate.FixdateExactly` | repo/crates/session-broker/src/http/wellknown.rs:123-149 | the string is an IMF-fixdate of section 5.6.7 of RFC 9110 if and only if the year has four digits |
| `CivilDate.EpochIsThursday` | repo/crates/session-broker/src/http/wellknown.rs:123-149 | second zero is Thursday, 1 January 1970 |

## Left out

- NoOrphanedToken: states one process that reloads its cache after each rotation, and positive leads; a zero lead unpublishes older keys by design, which `Issuer.EmergencyUnpublishes` states instead.
- RaceIsHonoured: looks through the index once the threads have settled. Between a mint and its `apply` the new token is not yet indexed, so a lookup of it then may answer unknown.
- IndexSafety: does not say the index is free of leftovers while threads interleave; a hash purged before its own minter reaches the index stays indexed, and resolves to unknown. Run one operation at a time the index is exact (`SessionRestart.IndexIsExact`).
- TablesMatchExactly: the boots inside the run read tables in the order decided; a run that goes on from overtaken tables is not followed further.
- Restart happens between operations. A log cut in the middle of one operation, and a failed or rolled-back writer batch, are not modelled.
- The store's own reaper (`store/repo.rs`, `reap`) and foreign keys: the tables change only by the commands the map emits.
- Tick: the durable failure rows, metrics and audit rows a pass writes are left out, and each answer is handled whole before the next.
- Scheduler: the binary heap is the sequence of its items in popping order, and custody ids are their ranks in string order.
- Map iteration visits keys in an arbitrary order, given out as a ghost listing; sharding and lock poisoning are not modelled.
- Limiter: instants are nanoseconds that never run backwards; the truncation of an elapsed time above 584 years to 64 bits is not modelled, nor the client key derivation.
- Generation numbers are unbounded; their 32-bit overflow, and i64 and Instant extremes, are not modelled.
- Jitter and lead fractions are reals; f64 rounding is not modelled.
- Observers and session events, cookies and their plaintext, hashing and signing, the HTTP layer, OIDC, the login store, configuration parsing, telemetry, the mock provider and the user interface would add plumbing or single-branch members.
- Reloads that fail, unusable key seeds, and a command line rotating keys while a broker holds an old cache.
- Audit pruning, pseudonymised fields and the mirror of rows to the log.
