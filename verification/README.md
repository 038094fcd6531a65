# Verified models of the platform's stateful protocols

This project models, in Dafny, the parts of the platform whose correctness depends on many processes
interleaving their atomic steps: mail delivery and pacing, the shared rate limiter and locks, the jobs table
with its redrive, and six state machines of identity and the database pool. It proves what the repository's
comments promise about whole runs, and, where the code promises more than it keeps, gives the input that shows
it and the exact condition under which the promise holds.

Run `dafny verify dfyconfig.toml` with Dafny 4.11.

## How it is organised

Each protocol has a *specification*: datatypes for its state, one function per atomic step (a Lua script, a SQL
transaction, a compare-and-set), an `Event` type for everything that may happen next (clock ticks, crashes, lost
replies, other processes) and `Play`, which runs any list of events. The main results are lemmas about `Play`
for every list of events. Where the source changes things in place there is also a *class* with the source's
fields and loops, each method proved to do what the specification functions say. What a step function itself does
(how long a claim lasts, what a slot costs, which status retries) is stated by lemmas of its own, in literal numbers.

| file | protocol | source |
|---|---|---|
| `MailLedger.dfy` | claims, leases and `sent` records of one message | `packages/platform-mail/src/state.ts`, `jobs.ts` |
| `MailPacing.dfy` | the token bucket and cooldown of one mailbox | `packages/platform-mail/src/state.ts` |
| `MailState.dfy` | both, as the keys in Valkey (class) | `packages/platform-mail/src/state.ts` |
| `MailAttempt.dfy` | one attempt: slot wait, Graph retries, settling | `packages/platform-mail/src/jobs.ts`, `graph.ts` |
| `RateLimit.dfy`, `Locks.dfy` | sliding window and owner-token locks | `packages/platform-cache/src/cache.service.ts` |
| `CacheService.dfy` | both, with the `held` map (class) | `packages/platform-cache/src/cache.service.ts` |
| `JobsTable.dfy` | the jobs table and its steps | `packages/platform-jobs/src/redrive.ts`, `engine.ts`, `claims.ts`, `pending.ts` |
| `RedriveSafety.dfy`, `Fencing.dfy` | what every run of that table keeps | the same |
| `RedrivePolicy.dfy` | what a redrive's policy decides, over runs and in its counts | `redrive.ts`, `packages/platform-mail/src/jobs.ts` |
| `RedrivePass.dfy`, `Jobs.dfy` | the redrive loop, the sweep and the worker's batch (class) | `redrive.ts`, `engine.ts`, `pending.ts` |
| `Retention.dfy` | queue configuration and retry arithmetic | `packages/platform-jobs/src/config.ts`, `packages/platform-mail/src/jobs.ts` |
| `Revocation.dfy` | cache-first session revocation (class) | `packages/identity/src/create-identity.ts`, `storage.ts` |
| `KnownDevice.dfy` | the device epoch race | `packages/identity/src/known-device.ts`, `lockout.ts` |
| `Lockout.dfy` | the layered attempt counters | `packages/identity/src/lockout.ts`, `defaults.ts`, `storage.ts` |
| `SessionContext.dfy` | the active context and its memo, every operation cut at its awaits | `packages/identity/src/context.ts` |
| `ContextRuntime.dfy` | the same code in its own form (class), the hook chain, clearing a context | `packages/identity/src/context.ts`, `create-identity.ts` |
| `StaffCap.dfy` | the 12-hour staff cap | `packages/identity/src/staff-session.ts` |
| `BackoffGate.dfy` | the connection backoff | `packages/platform-db/src/guard.ts` |
| `Common.dfy` | `Option` and counting facts | |

## Assumptions

- A key with a TTL is live strictly before the instant its TTL ends. Each machine has one clock that never goes
  back; the sliding window takes its callers' clock (`cache.service.ts:195`) for scores and expiry alike.
- The bucket's rate of 20 per 60000 ms is exactly one token per 3000 ms. The script computes in doubles; the
  model counts a token as 3000 units and is exact.
- A mail category is lower-cased as ASCII, which is exact for the prefix `auth.`.
- Tokens, slot ids and dead-letter copy ids are fresh; the keyed fingerprint and MAC of the device cookie are
  injective and unforgeable.
- pg-boss: the first fetch of a job keeps `retry_count`, a fetch after a retry raises it; giving up leaves the
  row `failed` and inserts a copy with the same payload and priority that names it.
- The replies of `acquireLock` reach the process in the order the locks were granted.
- The limiter's windows do not widen from one call to the next: a wider window asks about requests that were
  already pruned (`RateLimit.WideningForgets`). No two requests share a member.
- The redrive loop is compared with one pass while nobody else writes and the clock stands still. No queue is
  its own dead-letter queue (`config.ts:245-247`).
- A lost compare-and-set of `bumpAndReissue` with the value unmoved is one step with the bump it makes; a bump
  made later, after others have moved the value, is a `Touch` of that model.

## Where the code and its comments disagree

The code is what is modelled. In each case below a lemma gives the exact condition under which the promise holds, and
in most another gives an input that shows it fail.

- **The wait of a refused slot** (`state.ts:116-117`, "the milliseconds until one is available"): under a
  cooldown it is what is left of the cooldown, and the bucket may still be empty then. It is exact if and only if
  there is no cooldown or the bucket refills during it (`MailPacing.CooldownWaitCanBeShort`,
  `MailPacing.WaitIsLeastIff`).
- **`resetAt` of an admitted request** (`cache.service.ts:182-183`, "at which the window next frees a slot"): it
  is when this request leaves the window, which is the next slot freed if and only if no older request is still
  there (`RateLimit.AdmissionResetIsNextFreeIff`). A refusal's `resetAt` is the first instant of admission if and
  only if fewer than `limit` requests are younger than the oldest, which one limit guarantees
  (`RateLimit.ResetIsFirstIff`, `RateLimit.LoweredLimitResetsEarly`).
- **`releaseLock` "can never free the second holder's live lock"** (`cache.service.ts:361-363`): true until an
  entry is pruned. A release that frees a live lock comes before some holder has made its call if and only if
  something was pruned; then a first holder's late call frees its successor
  (`Locks.PrunedHolderFreesItsSuccessor`, `Locks.ReleaseFreesOnlyTheNewestLast`).
- **"That settle will land"** (`engine.ts:396-398`): an early settle that was not answered is counted. The count is
  right if and only if the claim was held then, and the settle had run all the same or no event ends the claim
  before the batch settles: its own settle, its expiry, a cancellation (`Jobs.ProcessedCountIsExactIff`,
  `Jobs.BatchSettleLandsIff`, from `Fencing.ClaimKeptIff`, over every run). `Jobs.LostSettleCountsTwice` is one job
  counted twice.
- **"A handler that finishes after its claim was lost can touch nothing"** (`engine.ts:376-377`): a settle
  carries the id and the attempt, not the insertion. After a redrive the same id starts again at attempt 0, and
  a late success of the first life completes the second (`Fencing.StaleSuccessCompletesRedrivenRow`,
  `Fencing.SettleReachesAnotherRowIff`).
- **"The least its retries can take"** (`config.ts:252-256`): what the retries can take is the worst start of the
  last one, and a deadline covers every life if and only if it is no earlier (`Retention.CoversIff`). The check asks
  for more; the deadlines refused although they cover are exactly those in between
  (`Retention.RefusedThoughEnoughIff`, `Retention.CheckCanRefuseEnough`).
- **"Re-run it when the cache is healthy"** (`create-identity.ts:720-722, 735-737`): rows are safe. A copy that only
  the user's list names is not: some failure of the cache leaves it served and named by nothing if and only if the
  list names a cached copy that has no row. One failed read of the list is enough
  (`Revocation.SomeScheduleLosesIff`, both halves on the whole call in `Revocation.Sessions.Purge`,
  `Revocation.ListedCopyCanBeOrphaned`).
- **"Invalidate every remembered device"** (`known-device.ts:208-211`): a bump in the same millisecond as the
  last update changes no epoch (`KnownDevice.BumpEndsDevicesIff`).
- **The staff memo "can only be stale in the direction of a user who has just become staff"**
  (`staff-session.ts:279-281`): it is also stale for one who has just ceased to be, whose session a read then ends,
  and in either direction for 30 s plus however long a lookup took to be remembered. From then on the cap holds for
  staff and nobody else is touched, and up to a millisecond before, for every such delay, some run shows otherwise
  (`StaffCap.SettledStaffNeverPastCap`, `StaffCap.OthersUnchanged`, `StaffCap.LinkIsMissedUntilTheBound`,
  `StaffCap.UnlinkIsMissedUntilTheBound`).
- **A set "must not leave a believed membership behind for a context the session does not hold"**
  (`context.ts:292-293`): it believes after two awaits, and a clear between its write and its belief is missed
  (`SessionContext.BeliefOutlivesClear`). A forgotten belief can come back with no new yes if and only if some
  operation of the process is past its yes and has yet to believe (`SessionContext.BeliefCanReturnIff`). In the same
  way a cleared session can hold the context again if and only if a write of it, by a set or by a read replacing a
  lost context, was on its way (`SessionContext.ClearCanBeUndoneIff`, `SessionContext.WriteCanUndoClear`,
  `SessionContext.ReplacementCanUndoClear`).

## Model

| member | source | states |
|---|---|---|
| MailLedger.ClaimGrantedIff | packages/platform-mail/src/state.ts:88-96 | A claim is granted exactly when the key is absent or past its TTL, and the token then holds it; a `sent` reply names the recorded id |
| MailLedger.SentIsFinal | packages/platform-mail/src/state.ts:88-114 | No step of any attempt turns a live `sent` record into anything else, and only another record rewrites it |
| MailLedger.StrangerMovesNothing | packages/platform-mail/src/state.ts:103-114 | Renew and release change the entry only for the token that holds it, and for it they do |
| MailLedger.ClaimLastsItsLease | packages/platform-mail/src/state.ts:88-96 | A granted claim is its token's for exactly the lease; until then every other claim is told it is in flight, and from then on one is granted |
| MailLedger.HolderRenewsAndFrees | packages/platform-mail/src/state.ts:103-114 | The holder's renewal starts the lease anew, and its release lets the next claim in at once |
| MailLedger.RecordLastsItsTtl | packages/platform-mail/src/state.ts:98-101 | For exactly its TTL a record answers every claim with its id |
| MailLedger.LeaseExcludes | packages/platform-mail/src/jobs.ts:84-96 | Over every run, until the lease of a claim ends, and while it is neither given back nor recorded over, no other claim is granted |
| MailLedger.UndisturbedDeliversOnce | packages/platform-mail/src/jobs.ts:247-265 | An attempt that delivers and records within its lease adds one delivery and no loss, and every later claim is told its id |
| MailLedger.WorkingAttemptKeepsOrGivesBack | packages/platform-mail/src/jobs.ts:338-352 | A renewal in time keeps the claim another lease, a give-back frees it, and an attempt that crashes after delivering is a loss |
| MailLedger.LapsesAreCounted | packages/platform-mail/src/state.ts:88-96 | Claims and lapses are counted exactly when they are granted, over an absent or expired entry |
| MailLedger.StepKeepsSane | packages/platform-mail/src/jobs.ts:302-411 | Tokens stay distinct and no attempt can have delivered and be about to release without being charged |
| MailLedger.StepKeepsPaid | packages/platform-mail/src/state.ts:88-114 | Clean deliveries never outnumber the present `sent` record plus the records that outlived their TTL |
| MailLedger.CountDeliveries | packages/platform-mail/src/jobs.ts:302-411 | Every delivery is charged to a loss, or clean, or the one attempt still holding its claim |
| MailLedger.DeliveriesBounded | packages/platform-mail/src/jobs.ts:247-265 | Over every run of any number of attempts on one message: copies delivered are at most 1, plus the delivering attempts that lost acknowledgement, mark or claim, plus expired records |
| MailLedger.OneLossTwoCopies | packages/platform-mail/src/jobs.ts:262-264 | The bound is attained: one lost acknowledgement, two copies |
| MailPacing.StepKeepsValid | packages/platform-mail/src/state.ts:119-143 | Tokens stay within 0 and the burst, and the key's expiry 120 s after its last write, over every step |
| MailPacing.ExpiryChangesNoAnswer | packages/platform-mail/src/state.ts:126-134 | The 120 s expiry of the bucket never changes its level: it would have been full |
| MailPacing.RefillBounded | packages/platform-mail/src/state.ts:123-130 | Refill is path independent: the level at a later time follows from the level at any earlier one |
| MailPacing.GrantsPaidFor | packages/platform-mail/src/state.ts:119-136 | What is granted in a run was in the bucket or refilled since |
| MailPacing.SlotsBounded | packages/platform-mail/src/state.ts:50-56 | Over every run of all workers, any closed interval holds at most the burst of 5 and one more slot per 3000 ms |
| MailPacing.AtMost25AMinute | packages/platform-mail/src/state.ts:50-56 | At most 25 messages leave in any minute |
| MailPacing.GrantedFromEarliestOn | packages/platform-mail/src/state.ts:119-136 | Undisturbed, a slot is granted at t if and only if t is at or after one computed instant |
| MailPacing.PollingIsFree | packages/platform-mail/src/state.ts:116-118 | Any number of refused asks changes neither a later level nor a later answer |
| MailPacing.WaitIsLeastIff | packages/platform-mail/src/state.ts:116-132 | No ask before the wait has passed is granted; the ask after it is, if and only if there was no cooldown or the bucket refills during it |
| MailPacing.TwoWaitsSuffice | packages/platform-mail/src/state.ts:119-136 | Waiting as told, at most twice, reaches the earliest possible instant exactly |
| MailPacing.CooldownWaitCanBeShort | packages/platform-mail/src/state.ts:120-121 | A cooled-down, empty bucket answers 1000 ms, and then 2000 ms more |
| MailPacing.BackOffTakesMax | packages/platform-mail/src/state.ts:138-143 | The not-before instant becomes the later of old and new, never earlier |
| MailPacing.NoSlotInCooldown | packages/platform-mail/src/state.ts:42-47 | In every run of all workers no slot is granted before the cooldown's end |
| MailPacing.GrantCostsOneToken | packages/platform-mail/src/state.ts:130-134 | A grant costs exactly 3000 ms of refill, a refusal nothing |
| MailPacing.TokensAreGranted | packages/platform-mail/src/state.ts:130-135 | Of any number of workers asking at once as many are granted as there are whole tokens |
| MailPacing.BurstOfFive | packages/platform-mail/src/state.ts:50-56 | From an unused mailbox a burst of exactly five goes out at once |
| MailPacing.CooldownRefusesExactly | packages/platform-mail/src/state.ts:116-143 | A cooldown answers exactly what is left of it, leaves the bucket alone, and ends by itself |
| MailState.DecodeWritten | packages/platform-mail/src/state.ts:88-101 | The two prefixes keep claims and records apart, and reading gives back the token or id written |
| MailState.SameClaim | packages/platform-mail/src/state.ts:103-114 | Comparing the stored string is comparing the token |
| MailState.ValkeyMailState.Claim | packages/platform-mail/src/state.ts:152-158 | The ledger's claim step and its reply; a granted claim holds for exactly its lease, and none other of the key is granted before; other keys are untouched |
| MailState.ValkeyMailState.MarkSent | packages/platform-mail/src/state.ts:159-161 | Unconditionally a `sent` record: for exactly its TTL every claim is told this id; other keys are untouched |
| MailState.ValkeyMailState.Renew | packages/platform-mail/src/state.ts:162-164 | True exactly for the holder, whose lease then starts anew |
| MailState.ValkeyMailState.Release | packages/platform-mail/src/state.ts:165-167 | Frees the entry only for its holder |
| MailState.ValkeyMailState.TakeSlot | packages/platform-mail/src/state.ts:168-180 | The script's arithmetic is the bucket's take step and answer; other mailboxes are untouched |
| MailState.ValkeyMailState.BackOff | packages/platform-mail/src/state.ts:181-183 | The cooldown step; fails exactly when the server refuses a TTL that is not positive |
| MailAttempt.CooldownSeconds | packages/platform-mail/src/jobs.ts:232-238 | Between 1 and 600 s: the provider's value when it is within those, 60 without one |
| MailAttempt.WaitForSlot | packages/platform-mail/src/jobs.ts:280-300 | Ends for every sequence of answers, having slept at most 120 s, in the one way the answers allow |
| MailAttempt.WaitEndsOneWay | packages/platform-mail/src/jobs.ts:280-300 | The answers decide the end and the number of questions: the description of an end fits exactly one |
| MailAttempt.GraphSend | packages/platform-mail/src/graph.ts:157-229 | Every attempt but the last was refused in place and slept out; the end is the last reply's; each 429 waited out was announced first |
| MailAttempt.OneAcceptanceAtMost | packages/platform-mail/src/graph.ts:50-51 | At most maxAttempts requests, none for a message of another sender, at most one acceptance and it is the last, nothing after a timeout, network or token error |
| MailAttempt.RunAttempt | packages/platform-mail/src/jobs.ts:302-411 | An invalid payload dead-letters before any claim; what each claim answer leads to; a claimed attempt waits, checks the signal, sends and settles as described |
| MailAttempt.ClaimedAttemptSettles | packages/platform-mail/src/jobs.ts:355-407 | Marks exactly when the provider accepted, else releases, never both; nothing is sent once aborted; only provider throttling cools down; dead-letters only on a status that is not retryable |
| MailAttempt.StatusDecides | packages/platform-mail/src/graph.ts:112-123 | Of an attempt that ends on a reply: 401, 429 and every 5xx retry, 202 completes, any other status dead-letters |
| MailAttempt.ThrottledCoolsDown | packages/platform-mail/src/jobs.ts:394-407 | An attempt that ends on a 429 releases its claim and then cools down for as long as the provider asked, within 1 and 600 s, a minute by default; on no other reply does it cool down |
| MailAttempt.RetriedInPlaceIff | packages/platform-mail/src/graph.ts:205-222 | Exactly 429, 502, 503 and 504 are tried again in place, within the attempts and the wait allowed; each 429 of these is announced in whole seconds |
| MailAttempt.NoAnswerRetries | packages/platform-mail/src/graph.ts:231-258 | A lost or late response, a missing token and an abort retry under their own code, without a cooldown |
| MailAttempt.NoSendRetries | packages/platform-mail/src/jobs.ts:280-300 | Without a slot, or aborted before the send, nothing is sent, the claim is released and the queue retries, told when to come back |
| RateLimit.SetRefinesHistory | packages/platform-cache/src/cache.service.ts:236-258 | For every calm run the pruned, expiring set answers every request exactly as the full history would, refunds included |
| RateLimit.AgreeOnTheWindow | packages/platform-cache/src/cache.service.ts:247-248 | Pruning leaves exactly the requests in (now - window, now] |
| RateLimit.AdmissionKeepsAgree | packages/platform-cache/src/cache.service.ts:247-257 | One evaluation, admitted or refused, keeps set and history in agreement |
| RateLimit.StepKeepsWithinLimit | packages/platform-cache/src/cache.service.ts:250-257 | No step, refund or admission, puts more than the limit in any window |
| RateLimit.NeverMoreThanLimit | packages/platform-cache/src/cache.service.ts:174-181 | Over every run with one window and limit, no window laid anywhere holds more than `limit` admitted requests |
| RateLimit.ResetIsFirstIff | packages/platform-cache/src/cache.service.ts:254-257 | An idle key refuses until the reset instant, and admits at it if and only if fewer than `limit` requests are younger than the oldest |
| RateLimit.AtReset | packages/platform-cache/src/cache.service.ts:247-256 | At the reset instant the window has lost its oldest requests and no other |
| RateLimit.ResetIsFirstUnderOneLimit | packages/platform-cache/src/cache.service.ts:254-257 | With one limit that condition always holds |
| RateLimit.ResetSecondsAreLeast | packages/platform-cache/src/cache.service.ts:215-220 | The seconds returned are the least that reach the reset instant |
| RateLimit.AdmissionAnswersAreExact | packages/platform-cache/src/cache.service.ts:250-253 | `remaining` is how many further requests at that instant are admitted before one is refused; an admission's reset instant is the first at which it has left the window |
| RateLimit.RefusalAnswersAreExact | packages/platform-cache/src/cache.service.ts:254-257 | Of the pruned set itself: until the instant a refusal answers an idle key refuses, and then it admits on the condition of `ResetIsFirstIff` |
| RateLimit.AdmissionResetIsNextFreeIff | packages/platform-cache/src/cache.service.ts:182-184 | On an admission, the instant is the next slot freed if and only if no older request is in the window |
| RateLimit.WideningForgets | packages/platform-cache/src/cache.service.ts:247-253 | A widened window admits what the history would refuse |
| RateLimit.LoweredLimitResetsEarly | packages/platform-cache/src/cache.service.ts:254-257 | With a lowered limit the reset instant is refused as well |
| RateLimit.Oldest | packages/platform-cache/src/cache.service.ts:255-256 | A score that is in the set and at most every other |
| Locks.StrangerChangesNothing | packages/platform-cache/src/cache.service.ts:262-314 | A token that does not hold the lock neither frees nor extends it, and taking never disturbs a live lock |
| Locks.LockLastsItsLease | packages/platform-cache/src/cache.service.ts:285-293 | A lock is its token's for exactly the lease, and till then is taken for everybody else |
| Locks.HolderExtendsAndFrees | packages/platform-cache/src/cache.service.ts:299-312 | The holder's extension starts the lease anew; its release ends it at once |
| Locks.RemembersTheNewest | packages/platform-cache/src/cache.service.ts:343-347 | The newest token is always remembered, last; only the oldest of more than sixteen is forgotten |
| Locks.LastCallFrees | packages/platform-cache/src/cache.service.ts:367-373 | The call that finds one live lock remembered frees it |
| Locks.ForeignTakesAndFrees | packages/platform-cache/src/cache.service.ts:285-303 | Another process takes and frees by the same rules |
| Locks.LiveOnly | packages/platform-cache/src/cache.service.ts:336-341 | Exactly the remembered entries not yet past their lease |
| Locks.StepKeepsKnown | packages/platform-cache/src/cache.service.ts:316-349 | Remembered and released tokens are this process's own, and no foreign one is |
| Locks.StepKeepsNewest | packages/platform-cache/src/cache.service.ts:316-373 | Of the tokens of one process only the newest can be live in the store, and it is the last remembered |
| Locks.ReleaseFreesOnlyTheNewestLast | packages/platform-cache/src/cache.service.ts:359-373 | In every run, when a `releaseLock` frees a live lock it is the newest, every acquisition has had its own call or was pruned, and some call is still to come if and only if something was pruned |
| Locks.ForeignLockUntouched | packages/platform-cache/src/cache.service.ts:354-357 | In every run a lock another process holds is never freed from here |
| Locks.PruningForgetsOnlyTheDead | packages/platform-cache/src/cache.service.ts:336-341 | Pruning by age forgets no live lock while leases are believed to end no earlier than they do |
| Locks.PrunedHolderFreesItsSuccessor | packages/platform-cache/src/cache.service.ts:336-346 | What pruning costs: the first holder's late call frees the second's live lock |
| Locks.UnprunedHolderFreesNothing | packages/platform-cache/src/cache.service.ts:359-363 | The same run without pruning frees nothing |
| CacheService.CacheService.ConsumeRateLimit | packages/platform-cache/src/cache.service.ts:189-221 | Fails open without a cache; else the set step and its answer; `remaining` further requests would be admitted now, from `resetAt` on this one no longer counts, and a refusal's `resetAt` is not a second too early; an error when a limit below 1 meets an empty window |
| CacheService.CacheService.RefundRateLimit | packages/platform-cache/src/cache.service.ts:231-234 | Removes exactly that slot of that key |
| CacheService.CacheService.TryLock | packages/platform-cache/src/cache.service.ts:285-314 | A fresh handle exactly when the lease is valid, the cache there and the lock not live |
| CacheService.CacheService.Release | packages/platform-cache/src/cache.service.ts:299-303 | Frees only while its own token holds the lock, and only once per handle |
| CacheService.CacheService.Extend | packages/platform-cache/src/cache.service.ts:304-312 | Extends only an unreleased handle whose token holds the lock |
| CacheService.CacheService.DropStale | packages/platform-cache/src/cache.service.ts:336-341 | Every list filtered to its live entries, empty lists gone |
| CacheService.CacheService.AcquireLock | packages/platform-cache/src/cache.service.ts:332-349 | Remembers the token at the end of its key's list of at most 16, after dropping stale ones at 1000 keys |
| CacheService.CacheService.ReleaseLock | packages/platform-cache/src/cache.service.ts:367-373 | Consumes the oldest remembered token and frees the lock only if it holds it; nothing for a key not remembered |
| JobsTable.MoveMovesOne | packages/platform-jobs/src/redrive.ts:195-262 | A transaction leaves the table as it was or moves exactly one copy: same id, payload and priority, first attempt, replacing only a failed row |
| JobsTable.PolicyDecides | packages/platform-jobs/src/redrive.ts:227-234 | A copy moves only if its origin queue is defined without a rule or the rule answers true on its payload; of the copies whose turn it is, with an origin queue that exists, exactly the others are rejected |
| JobsTable.MovesIff | packages/platform-jobs/src/redrive.ts:195-262 | When a copy moves: its turn, its origin queue still there, the rule's leave, no job in the way that has not failed |
| JobsTable.RedrivenIsNew | packages/platform-jobs/src/redrive.ts:60-62 | A redriven job has the retention of now, a full retry budget and no origin |
| JobsTable.FetchClaims | packages/platform-jobs/src/engine.ts:341-349 | A waiting job is claimed at attempt 0 first and at the next attempt after each retry |
| JobsTable.FailureRetriesOrBuries | packages/platform-jobs/src/engine.ts:357-373 | A failed attempt puts the job back to wait while a retry is left, and only then buries it |
| JobsTable.DeadLeavesACopy | packages/platform-jobs/src/redrive.ts:54-59 | A dead job stays, failed, and a copy with its payload and priority that names it waits in the dead-letter queue |
| JobsTable.SettleDoes | packages/platform-jobs/src/engine.ts:376-385 | Success finishes the job, or deletes it where the queue asks for that; failure retries or buries it; a permanent failure buries it at once |
| JobsTable.SweepTakesExactly | packages/platform-jobs/src/pending.ts:18-46 | A sweep deletes exactly the jobs of its queues that wait past their deadline |
| JobsTable.CancelledStays | packages/platform-jobs/src/redrive.ts:236-244 | A cancelled job is settled, fetched and replaced by nothing |
| JobsTable.StepKeepsNumbered | packages/platform-jobs/src/redrive.ts:49-73 | Every step keeps insertions distinctly numbered |
| RedriveSafety.StepKeepsGone | packages/platform-jobs/src/redrive.ts:63-66 | A row that is gone never comes back as the same insertion |
| RedriveSafety.EachCopyMovesAtMostOnce | packages/platform-jobs/src/redrive.ts:63-66 | In every run of redrives, sends, workers, expiry and sweeps, no copy moves twice |
| RedriveSafety.StepKeepsCarried | packages/platform-jobs/src/redrive.ts:67-69 | A step that neither finishes nor gives up on the row carrying a payload leaves that payload waiting or at work |
| RedriveSafety.OthersUntouched | packages/platform-jobs/src/redrive.ts:236-244 | A step aimed elsewhere changes an unfinished row at most by fetching it |
| RedriveSafety.PayloadKeptOrConsumed | packages/platform-jobs/src/redrive.ts:67-69 | After any run a payload is still carried, unless some step finished, cancelled, abandoned or expired its row |
| RedriveSafety.RedrivesLoseNothing | packages/platform-jobs/src/redrive.ts:67-69 | Redrives, sends and fetches alone lose no payload |
| RedrivePolicy.ForbiddenNeverMoves | packages/platform-jobs/src/redrive.ts:227-234 | Over every run of any number of redrives, a dead letter whose origin queue's rule forbids it, or is not defined there, never moves |
| RedrivePolicy.MailRuleIs | packages/platform-mail/src/jobs.ts:122-137 | Authentication mail in any casing, and what is not recognisably other mail, is not redriven; all other mail is |
| RedrivePolicy.AuthMailIsNeverRedriven | packages/platform-mail/src/jobs.ts:122-137 | In every run a dead authentication mail never goes back to the mail queue |
| RedrivePolicy.PassTakesOnlyPermitted | packages/platform-jobs/src/redrive.ts:108-118 | Only copies tried leave the queue, and only where the rule lets them |
| RedrivePolicy.PassCountsForbidden | packages/platform-jobs/src/redrive.ts:227-234 | `skipped` counts exactly the tried copies the rule forbids, `rejected` the same by origin queue |
| RedrivePolicy.PassCountsMoved | packages/platform-jobs/src/redrive.ts:108-118 | `moved` counts exactly the tried copies that left the queue, and unless the limit was reached every one was tried |
| Fencing.RowsOnlyMoveOn | packages/platform-jobs/src/pending.ts:30-33 | Over every run an inserted row keeps payload and deadline, never goes back, and is frozen once finished |
| Fencing.StepMovesOn | packages/platform-jobs/src/engine.ts:376-385 | One step of any kind moves rows on or inserts new ones |
| Fencing.SettleIsFenced | packages/platform-jobs/src/claims.ts:11-13 | A settle changes the table if and only if the job is active under that very attempt |
| Fencing.NothingAfter | packages/platform-jobs/src/engine.ts:331-340 | Past an attempt's running nothing settles under it; past its start nothing starts it again |
| Fencing.EachAttemptOnce | packages/platform-jobs/src/engine.ts:331-340 | Per inserted row, over every interleaving, each attempt is claimed at most once and settled at most once |
| Fencing.AttemptsWithinBudget | packages/platform-jobs/src/engine.ts:331-340 | Over every run, no attempt number is past the retries of its queue |
| Fencing.ClaimKeptIff | packages/platform-jobs/src/engine.ts:376-377 | Over every run from a held claim, the attempt still holds it on the same insertion if and only if no event was its own settle, its expiry or its cancellation |
| Fencing.LostForGood | packages/platform-jobs/src/engine.ts:298-301 | A lost claim never comes back to the same insertion, in any run |
| Fencing.SettleReachesAnotherRowIff | packages/platform-jobs/src/engine.ts:376-377 | A settle reaches a row it was not fetched from exactly when the id was inserted again and is active under the same number |
| Fencing.StaleSuccessCompletesRedrivenRow | packages/platform-jobs/src/redrive.ts:246-252 | That run: dead-lettered while running, redriven, fetched, completed by the first attempt |
| RedrivePass.OrderedIsSorted | packages/platform-jobs/src/redrive.ts:162-165 | The candidates in (created_on, id) order: exactly those, each once |
| RedrivePass.OldestFirst | packages/platform-jobs/src/redrive.ts:162-165 | Oldest first, and by id among those of one instant |
| RedrivePass.InCandidates | packages/platform-jobs/src/redrive.ts:135-161 | An id is a candidate exactly when its copy waits, is within its deadline, untried and matches the filter |
| RedrivePass.PassWithinLimit | packages/platform-jobs/src/redrive.ts:108-118 | Never more moved than the limit, never more counted than tried |
| RedrivePass.TryingOneLeavesTheRest | packages/platform-jobs/src/redrive.ts:108-118 | Trying one copy changes neither the other candidates nor their order |
| RedrivePass.TryingTheFirst | packages/platform-jobs/src/redrive.ts:111-117 | After trying the first, what is left to try is the tail of the list |
| RedrivePass.PassOneMore | packages/platform-jobs/src/redrive.ts:108-117 | The pass over one more id is the pass so far and then that id, unless enough have moved |
| RedrivePass.PassStops | packages/platform-jobs/src/redrive.ts:108-116 | Once enough have moved, what is left is not tried |
| Jobs.JobsDb.MoveStatements | packages/platform-jobs/src/redrive.ts:195-262 | The statements of the transaction, in order, have the outcome and the table of the move step, unless one of them throws |
| Jobs.JobsDb.MoveOne | packages/platform-jobs/src/redrive.ts:169-193 | Commit only for a copy that moved; any other outcome, and a statement that throws, leaves the table as it was; a lost answer leaves it as the transaction would have |
| Jobs.JobsDb.CandidateIds | packages/platform-jobs/src/redrive.ts:128-167 | The first n candidates in order |
| Jobs.JobsDb.TryNext | packages/platform-jobs/src/redrive.ts:112-115 | One id advances the single pass by one, or its transaction throws and the table is as the pass left it |
| Jobs.JobsDb.TryBatch | packages/platform-jobs/src/redrive.ts:111-117 | One batch is a stretch of the single pass, ended by a transaction that throws |
| Jobs.JobsDb.RedriveAll | packages/platform-jobs/src/redrive.ts:104-118 | The batched loop with its growing exclude set ends, and equals one pass over the candidates |
| Jobs.JobsDb.RedriveDeadLetters | packages/platform-jobs/src/redrive.ts:75-126 | Refuses a limit outside 1 to 10000, a malformed id and a queue that is nobody's dead letter, changing nothing; else one pass in order that stops at the limit; `moved`, `skipped` and `rejected` count the tried copies that left, that the rule forbids, and these by queue; whatever left, its rule let go, also when a transaction throws, which leaves the pass up to there |
| Jobs.JobsDb.SweepPending | packages/platform-jobs/src/pending.ts:18-69 | Deletes exactly the waiting jobs past their deadline, counts them per queue, and touches no other |
| Jobs.BatchJobsIndependent | packages/platform-jobs/src/engine.ts:275-287 | What became of the other jobs of a batch changes neither a job's row nor its claim |
| Jobs.BatchSettleDoes | packages/platform-jobs/src/engine.ts:286-295 | Settled on its verdict, a plain throw waits again while a retry is left, a permanent one is buried at once, and a handler that returned is finished |
| Jobs.EarlySettleDoes | packages/platform-jobs/src/engine.ts:375-385 | Only a handler that returned is settled early, and that finishes or deletes its row |
| Jobs.BatchSettleLandsIff | packages/platform-jobs/src/engine.ts:395-401 | After an unanswered early settle, over every run until the batch settles, the success lands if and only if the claim was held and the settle had run or nothing ended the claim |
| Jobs.ProcessedCountIsExactIff | packages/platform-jobs/src/engine.ts:383-401 | The processed count agrees with what becomes of the row exactly on that condition, or, when the settle was answered, unless the id was inserted again under the same number |
| Jobs.LostSettleCountsTwice | packages/platform-jobs/src/engine.ts:396-399 | One job counted as processed twice |
| Jobs.JobsDb.RunOne | packages/platform-jobs/src/engine.ts:341-403 | Verdict, table and counter of one job, its settle fenced, deleting instead of completing where asked |
| Jobs.JobsDb.CountFailures | packages/platform-jobs/src/engine.ts:303-329 | A failure is counted only where its claim is still held, or when that cannot be checked |
| Jobs.JobsDb.RunAll | packages/platform-jobs/src/engine.ts:286-287 | Every job of the batch settles on its own, each counted by its own settle |
| Jobs.JobsDb.ProcessBatch | packages/platform-jobs/src/engine.ts:286-295 | One verdict per job, and no job is counted both as processed and as failed |
| Retention.ResolveRetention | packages/platform-jobs/src/config.ts:133-184 | Each window given is the window kept, and one clock for finished jobs is never asked to keep two times |
| Retention.RetentionDefaults | packages/platform-jobs/src/config.ts:32-44 | Not given: a week for finished jobs, thirty days for dead letters, two weeks for jobs nobody fetched |
| Retention.ResolveQueue | packages/platform-jobs/src/config.ts:186-301 | What an accepted queue guarantees: bounds, a retry in hand unless waived, a heartbeat for long jobs, a dead-letter queue other than itself, a covering `pending` |
| Retention.QueueResolvesTo | packages/platform-jobs/src/config.ts:11-51 | Each option given is kept, each other is its default, and a heartbeat is added above five minutes |
| Retention.DefaultDeadLetterFitsIff | packages/platform-jobs/src/config.ts:236-244 | The default dead-letter name fits a queue name of at most 96 characters, and no longer one |
| Retention.MinRetryWindowSeconds | packages/platform-mail/src/jobs.ts:70-82 | The loop computes the total of the delays when every draw is zero |
| Retention.DelaysBetween | packages/platform-mail/src/jobs.ts:70-82 | For every sequence of draws the total delay lies between that window and retries times the maximum |
| Retention.StartedByWorst | packages/platform-jobs/src/config.ts:252-261 | For every sequence of draws a retry is fetched no later than the worst start |
| Retention.PendingCoversRetries | packages/platform-jobs/src/config.ts:252-269 | An accepted explicit `pending` covers every retry of every life, with an attempt to spare |
| Retention.SlowestLifeReachesWorst | packages/platform-jobs/src/config.ts:252-261 | There is a life that reaches the worst start of every retry |
| Retention.CoversIff | packages/platform-jobs/src/config.ts:252-261 | A deadline covers every retry of every life under every draw if and only if it is not before the worst start of the last |
| Retention.RefusedThoughEnoughIff | packages/platform-jobs/src/config.ts:256-268 | The deadlines refused although they cover are exactly those from that worst start up to what the check asks for, and what is accepted covers |
| Retention.CheckCanRefuseEnough | packages/platform-jobs/src/config.ts:258-268 | A deadline that covers every life and is refused |
| Retention.MailQueueFits | packages/platform-mail/src/jobs.ts:37-57 | The mail queue is accepted, spans 3970 s of retries at least and needs 13125 s of its 24 h |
| Retention.MailRetriesAtLeastAnHour | packages/platform-mail/src/jobs.ts:31-46 | For every sequence of draws mail retries for at least an hour, and every life of a mail fetches each retry within its 24 hours |
| Revocation.ListedGoOrDegrade | packages/identity/src/create-identity.ts:700-704 | Going through the list removes listed copies only; without a degradation all of them, each counted once |
| Revocation.SomeScheduleLosesIff | packages/identity/src/create-identity.ts:680-710 | Some failure of the cache loses a copy the list names, left cached and named by nothing, if and only if one of them is cached when the list is gone through |
| Revocation.OrphansAreReported | packages/identity/src/create-identity.ts:681-710 | If a listed copy survives its list, the call reports a failure |
| Revocation.ListedCopyCanBeOrphaned | packages/identity/src/create-identity.ts:700-709 | A listed copy survives and nothing leads to it any more |
| Revocation.UnreadCopyCanBeOrphaned | packages/identity/src/create-identity.ts:700-709 | So does a failed read of one token |
| Revocation.Sessions.DropCopies | packages/identity/src/create-identity.ts:672-677 | Verified means every copy of the batch is gone |
| Revocation.Sessions.PurgeList | packages/identity/src/create-identity.ts:680-710 | Cache and list after the second source; verified means no listed copy and no list is left, and the count is right |
| Revocation.Sessions.PurgeBatch | packages/identity/src/create-identity.ts:665-679 | Rows go only with their copies verified gone, and all of the batch does |
| Revocation.Sessions.PurgeRows | packages/identity/src/create-identity.ts:662-679 | The loop ends; every row deleted had its copy deleted first; a verified end leaves no row asked for |
| Revocation.Sessions.Purge | packages/identity/src/create-identity.ts:654-712 | However the cache fails, no row goes while its copy may survive; a normal return leaves no row, no copy of a row or listed token, and an exact count; a healthy cache always gets there; if every cached copy the list names has a row, each that survives still has one, and otherwise one failed read loses it |
| Revocation.Sessions.RevokeUserSessions | packages/identity/src/create-identity.ts:739-750 | One user's sessions only, counted exactly; the devices end only after the sessions did; a healthy cache always gets there |
| Revocation.Sessions.UnlinkMicrosoftAccount | packages/identity/src/create-identity.ts:954-997 | The link goes only once every session that stood at the call is gone, and those started in between go before it answers; a refusal before that leaves what a retry needs; with a healthy cache it answers how many accounts it removed |
| KnownDevice.StepKeepsInv | packages/identity/src/known-device.ts:169-206 | Nothing issued is ahead of the row, and after a move at most what was minted with it is valid |
| KnownDevice.AtMostOneSurvives | packages/identity/src/known-device.ts:174-179 | Over every interleaving of "other sessions", bumps and password changes at most one earlier cookie is valid once the epoch moved |
| KnownDevice.LoserReissuesNothing | packages/identity/src/known-device.ts:196-204 | A lost compare-and-set sets no cookie |
| KnownDevice.WinnerKeepsItsCookie | packages/identity/src/known-device.ts:174-179 | The winner from an unmoved credential leaves its own device remembered, under a valid cookie |
| KnownDevice.WinnerAfterPasswordChangeKeepsNothing | packages/identity/src/known-device.ts:176-179 | Where the password moved in between, the winner's cookie is dead on arrival and none is left |
| KnownDevice.AskingBrowserStaysRemembered | packages/identity/src/lockout.ts:167-233 | From the accepted cookie of the browser that asks to its new one: its device stays remembered, under a cookie that is the only valid one |
| KnownDevice.RowWritesMoveTheEpoch | packages/identity/src/known-device.ts:208-214 | A write of the row in another millisecond, and another password, leave no cookie valid that was |
| KnownDevice.FinishEndsTheSnapshot | packages/identity/src/known-device.ts:181-206 | A finished call has ended every cookie of its snapshot, in every later state |
| KnownDevice.ReissuesKeepDeviceAndIat | packages/identity/src/known-device.ts:169-173 | A chain of re-issues makes no new pair of device and birth |
| KnownDevice.NoCookieOutlivesItsSignIn | packages/identity/src/known-device.ts:117-135 | No cookie, however often re-issued, is accepted after its sign-in plus 90 days |
| KnownDevice.BumpEndsDevicesIff | packages/identity/src/known-device.ts:208-214 | A bump ends the remembered devices if and only if it changes the millisecond |
| KnownDevice.Account.BumpAndReissue | packages/identity/src/known-device.ts:181-206 | Won: one new cookie, of the call's device and birth, accepted at every second within its age unless the password part has moved. Lost: none, and the row has moved past the snapshot all the same |
| KnownDevice.Account.BumpDeviceEpoch | packages/identity/src/known-device.ts:208-214 | No cookie accepted before is accepted after, at any time, unless the bump falls in the millisecond of the last update, which changes no epoch |
| KnownDevice.Account.RememberDevice | packages/identity/src/known-device.ts:158-167 | The cookie the browser then holds is accepted now under the present epoch; one accepted already is kept, birth included, and only otherwise is a device born |
| Lockout.AdvanceKeepsSane | packages/identity/src/lockout.ts:55-101 | At every stage an attempt has counted on exactly the counters that lead there |
| Lockout.NewTicket | packages/identity/src/storage.ts:10-14 | An increment hands out a count nobody got before in that life of the counter |
| Lockout.CounterLives | packages/identity/src/storage.ts:10-14 | Over every run a counter lives exactly 900 s for a device or an address and 3600 s for the account and all devices from its first increment, and its n-th increment answers n |
| Lockout.CountDecides | packages/identity/src/lockout.ts:65-100 | Where the c-th count of each counter leads, with its limit and its delay |
| Lockout.SixthFromAnAddressIsRefused | packages/identity/src/defaults.ts:30-39 | Over every run, within 900 s of the first count an attempt from the address is refused exactly when five were counted before |
| Lockout.FiftyFirstOnTheAccountIsRefused | packages/identity/src/defaults.ts:40-46 | Over every run, within an hour of the first count an attempt on the account is refused exactly when fifty were counted before |
| Lockout.ArrivalReadsTheGeneration | packages/identity/src/lockout.ts:63-65 | An attempt counts under the generation it finds, at its device first if it has one |
| Lockout.UnansweredGoesOn | packages/identity/src/storage.ts:29-31 | An increment without an answer changes nothing and lets the attempt go on |
| Lockout.StoreDownAdmits | packages/identity/src/storage.ts:29-31 | With the store down every attempt is admitted at once |
| Lockout.AdmittedWithinLimit | packages/identity/src/defaults.ts:38-62 | Over every run, per generation and life of a counter, no more attempts are admitted on it than its limit: 5, 50, 5 and 20 |
| Lockout.AdmissionsAreCounted | packages/identity/src/lockout.ts:55-101 | Every admitted attempt counted on its device and the shared budget, or on its address and the account, within the limits |
| Lockout.DeviceBudgetDecides | packages/identity/src/lockout.ts:65-85 | A device within both budgets is admitted at once and touches no other counter; one its own limit refuses spends nothing shared |
| Lockout.DelayIsProgressive | packages/identity/src/lockout.ts:96-100 | The delay starts at the sixth attempt, grows and stops at 5 s |
| Lockout.NewGenerationStartsOver | packages/identity/src/lockout.ts:103-107 | Under a generation nobody counted under, the first attempt passes without delay |
| Lockout.Throttle.Increment | packages/identity/src/storage.ts:63-67 | A dead counter starts at one and lives 900 or 3600 s, a live one counts on to the same end; 0 when the store does not answer |
| Lockout.Throttle.Admit | packages/identity/src/lockout.ts:55-101 | The four counters in the source's order end an attempt as the run model does, and leave none of a later generation; with five on a live counter of its address, or its device, it is refused |
| Lockout.Throttle.ClearAttempts | packages/identity/src/lockout.ts:103-107 | Whatever had been counted up to this generation, the next attempt of any kind, address or device passes without delay |
| SessionContext.StepKeepsInv | packages/identity/src/context.ts:118-208 | Whatever an operation carries past its yes was approved for its user since it began, every belief rests on a yes given before it was set, and the memo stays bounded |
| SessionContext.WritesAreApproved | packages/identity/src/context.ts:140-160 | A step that puts a context on a session belongs to an operation that got the port's yes for that user since it began |
| SessionContext.HeldContextsWereApproved | packages/identity/src/context.ts:154-160 | In every run every session holds only a context it held at first or one approved for its user |
| SessionContext.ReadsAreJustified | packages/identity/src/context.ts:167-208 | In every run, whatever lands between its awaits, a read returns a context only of a session already expired, or believed for less than the TTL, or approved during this read, or held when loaded while the port threw |
| SessionContext.ForgettingOnlyAsksMore | packages/identity/src/context.ts:179-180 | Fewer beliefs never keep a read from asking |
| SessionContext.MemoAnswersForItsTtl | packages/identity/src/context.ts:118-124 | A belief answers for exactly its time to live |
| SessionContext.FullMemoForgetsItsOldest | packages/identity/src/context.ts:122-123 | A memo of 10000 makes room by its oldest entry and no other |
| SessionContext.AsksIff | packages/identity/src/context.ts:170-183 | A read asks exactly about a session with a context, not expired, that this process does not believe |
| SessionContext.NewSessionStartsWith | packages/identity/src/context.ts:140-160 | A new session starts with the context proposed if the port said yes to it, and with none otherwise |
| SessionContext.ThrownWriteEnds | packages/identity/src/context.ts:283-294 | A set whose write throws ends with nothing believed or forgotten, the row written or not |
| SessionContext.EndedSessionStaysGone | packages/identity/src/context.ts:167-169 | In every run a session that has ended stays gone |
| SessionContext.ClearIsUndoneOnlyBy | packages/identity/src/create-identity.ts:919-927 | Over every run from a cleared session, it holds the context again only through a write already on its way or a later yes |
| SessionContext.ClearCanBeUndoneIff | packages/identity/src/create-identity.ts:919-927 | Some run undoes a clear with no new yes if and only if a write of that context on that session was on its way |
| SessionContext.BeliefReturnsOnlyBy | packages/identity/src/context.ts:292-295 | Over every run from a forget, the belief is back only through an operation already past its yes or a later yes |
| SessionContext.BeliefCanReturnIff | packages/identity/src/context.ts:292-295 | Some run brings a forgotten belief back with no new yes if and only if an operation of this process is between its yes and its belief |
| SessionContext.BeliefOutlivesClear | packages/identity/src/context.ts:282-295 | A clear between a set's write and its belief leaves a context believed that the session does not hold |
| SessionContext.WriteCanUndoClear | packages/identity/src/context.ts:263-285 | A set agreed to before a clear and written after it restores the context and believes it |
| SessionContext.ReplacementCanUndoClear | packages/identity/src/context.ts:192-201 | So does a read's replacement of a lost context |
| ContextRuntime.ChainAddsInOrder | packages/identity/src/context.ts:335-339 | A chain split anywhere is its parts in turn: later hooks see and override what earlier ones added, and a refusal stops it |
| ContextRuntime.ChainOfAtMostOne | packages/identity/src/context.ts:343-354 | No hook adds nothing, and one adds what it adds |
| ContextRuntime.ChainCreateBefore | packages/identity/src/context.ts:340-355 | The loop folds the hooks as that law says |
| ContextRuntime.ContextRuntime.Believe | packages/identity/src/context.ts:118-124 | The run model's step: with a TTL the context is believed from now on, the oldest belief gone when the memo was full; without one nothing changes |
| ContextRuntime.ContextRuntime.ForgetBeliefs | packages/identity/src/context.ts:125-132 | Exactly the beliefs about that context, or about the user altogether, are gone |
| ContextRuntime.ContextRuntime.AfterProposal | packages/identity/src/context.ts:140-152 | Only a context the port agreed to is chosen, and it is believed |
| ContextRuntime.ContextRuntime.FindSession | packages/identity/src/context.ts:167-208 | With nobody in between, the run model's steps in order: a believed or a kept context touches no row, a lost one is forgotten and replaced by nothing but what the port agreed to, and each yes is believed |
| ContextRuntime.ContextRuntime.SetContext | packages/identity/src/context.ts:252-307 | Refusals change nothing; otherwise, with nobody in between, the row holds the new context, which is then believed, and "no context" forgets the one before, or all of the user's |
| ContextRuntime.ContextRuntime.ClearContextSessions | packages/identity/src/create-identity.ts:902-930 | Ends even when rows never change and touches no other; with fewer than a batch of such rows every other one is cleared, forgotten and counted once |
| StaffCap.ClampedWrites | packages/identity/src/staff-session.ts:202-252 | A staff session is never written past createdAt + 12 h nor lengthened, and nobody else's expiry changes |
| StaffCap.ClampIsExact | packages/identity/src/staff-session.ts:202-252 | To the millisecond: the earlier of what was asked for and twelve hours from creation |
| StaffCap.StepKeepsInv | packages/identity/src/staff-session.ts:283-305 | A "not staff" answer remembered or under way predates the account linked now; a "staff" one of a user without an account predates the unlinking |
| StaffCap.SettledStaffNeverPastCap | packages/identity/src/staff-session.ts:312-331 | In every run, links by other processes included, a read of a session of settled staff past its 12 hours never returns a later expiry |
| StaffCap.OthersUnchanged | packages/identity/src/staff-session.ts:332-332 | In every run a read of a session of anyone who is not staff, and has not been for the same time, returns it as found |
| StaffCap.ReadReturns | packages/identity/src/staff-session.ts:350-371 | A session of staff past its twelve hours comes back expired at them, to the millisecond, and any other as found |
| StaffCap.LookupIff | packages/identity/src/staff-session.ts:354-363 | Exactly which reads ask the database |
| StaffCap.AnswerIsRememberedForHalfAMinute | packages/identity/src/staff-session.ts:283-303 | An answer, and a link handled here, spare lookups for exactly 30 s |
| StaffCap.EmailCountsAtOnce | packages/identity/src/staff-session.ts:295-295 | An email moved onto or off a staff domain counts from the next read |
| StaffCap.LinkIsMissedUntilTheBound | packages/identity/src/staff-session.ts:298-302 | For every delay of a lookup, some run returns a session past its cap unchanged until a millisecond before the bound |
| StaffCap.UnlinkIsMissedUntilTheBound | packages/identity/src/staff-session.ts:279-302 | For every delay of a lookup, some run ends the session of a user who is no longer staff until a millisecond before the bound |
| StaffCap.StaffGuard.Remember | packages/identity/src/staff-session.ts:283-288 | The new answer, at the cost of the oldest user only when full |
| StaffCap.StaffGuard.Classify | packages/identity/src/staff-session.ts:291-303 | Domain first, then a fresh memo, then the accounts, remembered |
| StaffCap.StaffGuard.FindSession | packages/identity/src/staff-session.ts:350-371 | Staff past the cap come back expired at it; staff at the cap skip the refresh; all others as found |
| StaffCap.StaffGuard.BecameStaff | packages/identity/src/staff-session.ts:416-465 | Exactly the user's sessions stored past the cap end, and the memo says staff after a link |
| BackoffGate.DelaysGrowToTheCap | packages/platform-db/src/guard.ts:97-102 | Delays start at the minimum, never shrink from failure to failure and stop at the cap |
| BackoffGate.DelayDoubles | packages/platform-db/src/guard.ts:61-63 | Each failure doubles the delay up to the cap |
| BackoffGate.StepKeepsValid | packages/platform-db/src/guard.ts:93-119 | The window ends at most the current delay ahead and never moves back without a success |
| BackoffGate.NoDialBeforeRetry | packages/platform-db/src/guard.ts:147-157 | From a failure until a success, however many dials are under way, no dial starts before the window ends |
| BackoffGate.FailureClosesTheGate | packages/platform-db/src/guard.ts:97-103 | After a failure new dials are refused for exactly its delay |
| BackoffGate.NthFailureHoldsBack | packages/platform-db/src/guard.ts:60-65 | Over every run, after the n-th failure in a row no dial starts for the n-th delay |
| BackoffGate.GateOpensAgain | packages/platform-db/src/guard.ts:147-157 | Past the window every request is a dial |
| BackoffGate.WindowBounded | packages/platform-db/src/guard.ts:63-65 | After any run the pool is usable again within the cap |
| BackoffGate.SuccessResets | packages/platform-db/src/guard.ts:116-118 | One success undoes everything: the next failure waits the minimum |
| BackoffGate.GuardedPool.Record | packages/platform-db/src/guard.ts:97-119 | The closure variables after a dial are the gate's step |
| BackoffGate.GuardedPool.NewClient | packages/platform-db/src/guard.ts:147-157 | A gated caller is answered once with the last error, unless it timed out, and owes the queue a pulse; any other dials |
| BackoffGate.GuardedPool.Drain | packages/platform-db/src/guard.ts:147-157 | However many pulses are owed and whenever they come, each serves the next waiter, once and in order; inside the window one pulse answers a queue of any length and dials nothing |

## Left out

- Better Auth, pg-boss, pg-pool, Drizzle and ioredis themselves: only the atomic steps the repository relies on are modelled.
- HMAC, HKDF, digests, UUIDs, cookie formats and the lower-casing and hashing of keys: keys and fingerprints are taken as injective.
- Message validation, error classification and the parsing of `Retry-After` dates: their results are inputs.
- `Jobs.JobsDb.MoveOne`: a connection that cannot even roll back is dropped by the pool, which is not modelled.
- The body of the random in-place backoff in `graph.ts:214`: each delay is an arbitrary whole number of milliseconds.
- HTTP and Nest wiring, OAuth callbacks, logging, metrics export, environment, PEM and TLS parsing, schema and DDL: plumbing or single-branch facts.
- `jobs.once`, schedules, `defineQueue` conflicts and the start and stop states of the engine: they would add easy members.
- `resolveHandler` and the fingerprint of a queue definition: bounds checks of the kind `ResolveQueue` already shows.
- `setUserBanned`, the ban memo, `listSessions` filtering and the staff sign-in hook: single-branch facts.
- `MailAttempt.RunAttempt`: renewals run beside the attempt in `MailLedger` and are not repeated here; an error thrown by a custom transport is one kind of failure.
- `Jobs.JobsDb.ProcessBatch`: the jobs of a batch run one after the other; `Jobs.BatchJobsIndependent` says why their order does not matter, and interleaving with other workers is in `Fencing`.
- `Revocation.Sessions.Purge`: no sign-in lands between its steps (`UnlinkMicrosoftAccount` has one between its two), and no session refresh caches a copy again between the delete of that copy and of its row; a list that names a token twice is read twice.
- `Lockout.Throttle.Admit`: one attempt with the account to itself; interleavings, lost answers included, are in the run model, which the same step functions define.
- `ContextRuntime.ContextRuntime.ClearContextSessions`: proved one way, because with a batch full of rows that never change it is the database's order that decides what else is seen.
- `ContextRuntime.ContextRuntime.SetContext`: nobody acts between its awaits, nor between those of `FindSession`; `SessionContext` is where everybody does, on the same steps.
- `SessionContext.ReadsAreJustified`: the cached copy of a session, which `reconcile` drops when the store degrades, is the row itself; the cookie cache is not modelled.
- `KnownDevice.AtMostOneSurvives`: users without a password account, who are never remembered, are not modelled.
- `BackoffGate.GuardedPool.Drain`: idle clients, the pool's size and its timers are pg-pool's.
