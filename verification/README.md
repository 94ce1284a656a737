# WebhookHub: a verified model

WebhookHub receives webhooks, stores them in PostgreSQL and forwards them with a pool of workers. The workers
share nothing but the database: a claim gives a webhook a lease and a new lease version, every later write of the
worker checks both, and replays, bulk replays, deletes, retention, pauses and rule edits interleave with them.
This project models that queue and the other parts of the program that carry an algorithm, and proves what they
promise.

| part | files |
|---|---|
| rows, and what every transaction does to them as a function | `DeliveryModel`, `Transactions`, `StoreInvariant` |
| the storage layer in its own form, a class that updates tables | `Database` |
| the delivery attempt: retry settings, backoff, deadlines, the verdict on a reply | `Arithmetic`, `Backoff`, `Forwarding` |
| all workers and all calls interleaved, as a state machine | `Protocol`, `ClaimBatch` |
| what every run keeps | `Ownership`, `TimedExclusion`, `Reports`, `Fencing`, `History`, `Reachable`, `Retries`, `Accounting` |
| what is written, column by column, and one delivery from its claim to its finish | `Effects`, `Deliveries`, `Progress` |
| transactions split into begin, row locks and commit, and what a pause holds back | `RowLocks`, `Pausing`, `Overtaking` |
| the login limiter as a machine over values and as linked objects | `LoginLimits`, `LoginLimiter` |
| finding the instant of a local time | `LocalTime` |
| signature headers | `Text`, `Decimal`, `SignatureHeader`, `SignatureMeaning` |
| search, order and pages | `LikePattern`, `WebhookSearch`, `Pagination` |

In `Protocol` a step is one storage call, one HTTP event, a passing of time or a crash. Workers keep the copy of
the webhook that their claim returned, and act on it however stale it is. Every call carries the reading of the
clock that its code used, which may lie before the current time. HTTP replies, cancellations and timeouts are
arbitrary. The clock is shared and does not pass the deadline of an open request. The system also keeps history
that no step reads: who was granted which version, the attempts' versions, all requests and a log of events.
`RowLocks` then splits each transaction that changes existing webhooks into steps. Its query begins by selecting
among the rows and paused sources of that moment. It locks rows one at a time and checks each again when it has the
lock (Read Committed, section 13.2.1 of the PostgreSQL documentation); it keeps the lock of a row that fails the
check without using the row. A create or finish checks its lease when it gets the lock. Then it commits.
Every lock-level run is proved to do what an atomic run does, so all
theorems about runs carry over.

What a call does is defined once, as a function, and performed by the class in `Database`. So that these functions
say what they should, `Effects`, `Deliveries`, `SignatureMeaning` and the lemmas whose names end in "Mean", "Means",
"Are" or "Iff" state it again without them: in columns, literals, texts and indices, and over whole runs where one
call does not show it.

Four promises hold only under a condition:

- The backoff never overflows exactly for bases up to 4,611,686,018 seconds (`Backoff.NeverOverflowsIff`), and its
  delays are the intended ones exactly when `Backoff.BaseIsSafe` holds, which is true of those bases and of some
  far larger ones (`Backoff.DelaysExactIffBaseIsSafe`). The base 4,611,686,019 gives a negative second delay
  (`Backoff.UnsafeBaseExample`).
- A header's age is computed in nanoseconds in an int64. A signed header is accepted exactly within the tolerance,
  for every tolerance, if and only if its age fits, which is about 292 years
  (`SignatureHeader.SignedHeaderAcceptedIff`, `SignatureHeader.FarTimestampExample`).
- A pause holds back a webhook of any status if and only if no claim of it that did not see the pause is both under
  way and within reach of it: nobody has the webhook, or its lease had run out when the claim read the clock, or its
  owner still has time to report or a report on its way (`Overtaking.PauseHoldsTheQueueIff`). Such a claim can commit
  after the pause (`Pausing.PauseCanBeOvertaken`).
- The local time scan is proved exact if no January fallback leads back before the cursor. None does in a zone whose
  bounds are right or fail only on the last day of a year (`LocalTime.LateFailuresAreHarmless`), and one that stays
  where it is does no harm (`LocalTime.StallLastsOneRound`). `LocalTime.BackwardFallbackCycles` only shows why the
  hypothesis is there, with a zone that is not known to occur.

## Model

| member | source | states |
|---|---|---|
| TimedExclusion.RequestsNeverOverlap | internal/forwarder/forwarder.go:49-66 | In every reachable state of every run with crashes, stale workers, replays and retries, of two HTTP requests for one webhook the earlier one had stopped before the later one started and belongs to an older claim. So no claim sends twice. |
| TimedExclusion.TakeoverLeavesTheReserve | internal/forwarder/forwarder.go:156-163 | A claim that takes over an expired lease is granted at least 5 s after every request of the claim it replaces has ended. |
| TimedExclusion.SendIsCurrent | internal/forwarder/forwarder.go:156-167 | Whenever a request may be sent, the sender's claim is the latest one, its copy is the stored row, and the request's deadline plus 5 s is within the granted lease. |
| Fencing.VersionCountsClaims | internal/storage/db_retry.go:58-65 | Between any two states of a run a webhook's lease version grows by exactly the number of claims of it: nothing else changes it, and no reset or finish lowers it. |
| Fencing.VersionsAreIssuedOnce | internal/storage/db_retry.go:71-76 | Of two claims of one webhook in a run the later one gets a larger version, so a (webhook, version) pair is issued at most once. |
| Fencing.CallsSucceedIffStillOwner | internal/storage/db_delivery.go:116-131 | In every reachable state, create and finish succeed exactly when no newer claim, delete or lease expiry has come between; otherwise all tables stay as they were. |
| Fencing.FinishCompletesOwnAttempt | internal/storage/db_delivery.go:60-83 | A successful finish completes the attempt made under the same version, and the claim's copy equals the locked row, so the failure count that decided about the retry is the one incremented. |
| Fencing.FinishesHaveGrowingVersions | internal/storage/db_delivery.go:84-112 | Of two successful finishes of one webhook the later one has a larger version: one finish per claim. |
| Reachable.PendingAttemptsAreOwned | internal/storage/db_delivery.go:34-43 | In every reachable state an attempt's webhook exists, and a pending attempt is the only one of its webhook, which is processing under the version the attempt was created under. |
| Ownership.StepKeepsOwnership | internal/storage/db_retry.go:45-56 | Every step keeps the ownership invariant over claims, grants, attempts and rows. |
| Reachable.StatusMatchesColumns | internal/storage/db_delivery.go:84-112 | In every reachable state processing, retrying and dead-lettered hold exactly when the lease, the retry time and the dead-letter time are set. |
| Reachable.NothingGetsStuck | internal/storage/db_retry.go:19-28 | A free worker can claim a webhook exactly when it is not in a final state, its lease or retry time has come and its source is not paused. |
| Reachable.RemovedOnlyWhenIdle | internal/storage/db.go:175-193 | A row disappears only by a delete while it is not processing, or by retention while it is final and old enough. |
| Reachable.RetentionTakesIff | internal/storage/db_retention.go:69-76 | Retention takes a webhook exactly when it is older than the cutoff and delivered, skipped or dead-lettered. |
| Reachable.BulkReplayRequeuesOnce | internal/storage/db_bulk_replay.go:36-54 | Between any requeue of a webhook and a later bulk replay that requeues it lies a finish that dead-lettered it again. |
| History.FailureCountIsHistory | internal/storage/db_delivery.go:88-111 | The failure count equals the number of attempts recorded as failed since the webhook was received, requeued, delivered or skipped, and those attempts are in the table. |
| History.ResponseAndSuccessAreJustified | internal/storage/db_delivery.go:65-93 | The saved response is the body of the latest attempt finished and not skipped since the last reset, and a delivered webhook has a recorded success with a 2xx status in its current epoch. |
| History.DeadLettersAreJustified | internal/storage/db_delivery.go:98-106 | A dead-lettered webhook's last verdict in its current epoch is a recorded failed attempt that asked for no retry. |
| Deliveries.FinishStoresTheAnswer | internal/forwarder/forwarder.go:49-85 | Whatever interleaves, a delivery that finishes stores what its target answered: claim, load, create, answer and decision are earlier steps of its worker in this order, and every column of the row follows from that answer, the rule as it was loaded, the failures so far and the clock of the decision. The kept response is the first MiB of the body, and the retry time is the decision's clock plus the doubled and capped base. |
| Deliveries.AttemptRecordsTheAnswer | internal/storage/db_delivery.go:64-78 | The attempt is closed with the reply's status, headers, kept body and truncation mark, and the webhook's response is the same body. |
| Deliveries.FinishWithoutTarget | internal/forwarder/forwarder.go:64 | Without a target the webhook is skipped and keeps its response, or, if its worker was cancelled, waits again with an empty one. |
| Deliveries.DecisionsFollowTheRule | internal/forwarder/forwarder.go:64-79 | In every run a decision asks for a retry exactly when it is not cancelled, the request failed and the failures stay below the loaded limit (3 if none), and then at its clock plus min(b * 2^failures, 30 s), with b the loaded base (2 s if none). |
| Deliveries.RetriesWaitOutTheBackoff | internal/storage/db_retry.go:19-28 | A retrying webhook is not claimed at a clock reading before that time: the decision is exhibited, and its clock plus the backoff for the row's failure count is at most the reading. |
| Progress.DueWebhooksCanBeDelivered | internal/forwarder/forwarder.go:49-85 | From every reachable state a webhook that is due can be claimed, sent and finished by a free worker in seven calls, under every lease of more than 5 s and every timeout, and ends as the outcome of whatever the target replies. |
| Effects.EveryRowIsItsLastWrite | internal/storage/db_delivery.go:84-112 | In every run a stored row is, in every column, what the last receipt, claim, finish, reset or bulk replay of it wrote, and nothing else changes a row. |
| Effects.ReceivedDataIsKept | internal/storage/db.go:135-137 | Source, headers, payload and arrival time are those of the webhook's receipt, in every reachable state. |
| Effects.EveryAttemptClosesOnce | internal/storage/db_delivery.go:64-83 | A stored attempt is what its create wrote, changed by at most one call, the finish of its worker or the claim that took its webhook over. |
| Effects.EveryRuleIsItsLastSave | internal/storage/db_forwarding.go:13-26 | Every setting of a rule is that of the last save of its source, whatever pauses interleave. |
| Effects.SavedRuleStays | internal/storage/db_forwarding.go:13-26 | A rule stays, with what was saved, until it is saved again or deleted. |
| Reports.RunsReport | internal/forwarder/forwarder.go:64-79 | In every run a worker reports success only for a 2xx reply, and a retry only below the attempt limit of the rule it loaded. |
| Retries.RunsStayWithinLimits | internal/forwarder/forwarder.go:70-73 | For each source: from a state in which its webhooks in play have fewer failures than its limit, they always do, as long as its limit is not changed while it has webhooks or claims. Other sources' rules may change freely, and an unused source is within any limit. |
| Retries.FailuresAreJudgedByLoadedRule | internal/forwarder/forwarder.go:67-74 | In every run, with any rule edits, a recorded failure dead-letters the webhook exactly when its failures reach the limit of the rule its worker loaded, and otherwise leaves it retrying. |
| Retries.DeadLetteredOnLastFailure | internal/storage/db_delivery.go:98-111 | While the source's limit M is not changed while in use, a recorded failure dead-letters the webhook exactly when it is the M-th, and otherwise leaves it retrying. |
| Accounting.AttemptsAreBounded | internal/forwarder/forwarder.go:224-229 | Without arrivals, replays, cancellations, takeovers and changes of a limit in use, the attempts started plus the remaining budget never exceed the budget at the start: a termination measure. |
| Accounting.AttemptsAtMostHeadroom | internal/forwarder/forwarder.go:67-74 | Such a stretch starts at most the sum of M - failure_count over the webhooks not in a final state. |
| Accounting.AttemptsAreAccountedFor | internal/storage/db_delivery.go:98-111 | In any part of any run, with any limits and edits of them, attempts started plus the remaining budget are at most the budget at its start plus what its steps grant: a limit per arrival or requeue, one per takeover of an unfinished attempt, per cancellation and per retry decided under an outdated larger limit, and what an edit raises the limit by. |
| Accounting.AttemptsAreGranted | internal/forwarder/forwarder.go:67-78 | In every run from the empty system, the attempts started are at most what its steps granted so. |
| Accounting.StepCredit | internal/storage/db_retry.go:45-56 | For every step, rule edits included, and every webhook, what may still be started grows by at most what the step grants, less the attempt it starts. |
| Pausing.PausedFlagIsLastSetting | internal/storage/db_forwarding.go:13-38 | The paused flag is the last pause setting since the rule was created, else its creation value, whatever rule saves interleave. |
| Pausing.PauseHoldsTheQueue | internal/storage/db_retry.go:25 | From a pause until a resume or a deletion of the rule, a webhook of the source gains no lease version in any interleaving of transactions, unless a claim of that webhook that did not see the pause is under way when it takes effect. |
| Overtaking.PauseHoldsTheQueueIff | internal/storage/db_retry.go:19-28 | For a webhook of any status, every continuation under the pause keeps its version if and only if no claim of it that missed the pause is under way and within reach: it is not processing, or its lease ended by the claim's reading, or its owner can still report. |
| Overtaking.HeldBackWhenBlocked | internal/storage/db_delivery.go:116-131 | A webhook whose owner is out of time and whose stale claims read the clock before its lease ended keeps its whole row while the source is paused. |
| RowLocks.LockedRunsRefineAtomicRuns | internal/storage/db.go:195-202 | Every interleaving of transactions at the level of row locks reaches the state of an atomic run of the same calls in the order of their commits. |
| RowLocks.CommitIsAtomic | internal/storage/db_delivery.go:59-63 | What was checked when the rows were locked still holds at the commit, which is one atomic step. |
| Pausing.ClaimsBeganUnpaused | internal/storage/db_retry.go:19-28 | A claim that commits had begun while the webhook's source was not paused. |
| Pausing.PauseOvertakesClaim | internal/storage/db_forwarding.go:28-38 | From every state in which a claim could start, it can begin, lock its webhook, be overtaken by a pause and commit, so a paused source's webhook gains a version. |
| Pausing.PauseCanBeOvertaken | internal/storage/db_forwarding.go:28-38 | There is a run from the empty system in which a commit raises the version of a webhook of a source that the step before it had paused. |
| Pausing.OvertakeStartIsReached | internal/storage/db.go:135-137 | The state in which that claim starts is reached from the empty system. |
| RowLocks.NoDeadlock | internal/storage/db_bulk_replay.go:38-41 | In no reachable state do transactions wait for each other's row locks in a circle, counting the locks kept on rows that failed the check: bulk replay locks in ascending order, claims and retention skip locked rows. |
| ClaimBatch.BatchIsSingleClaims | internal/storage/db_retry.go:36-66 | Claiming several webhooks at once ends in the same tables as claiming them one after the other in any order, and every single claim is possible in its turn. |
| Database.DB.Save | internal/storage/db.go:135-137 | A new row under an id never used before; nothing else changes. |
| Database.DB.ClaimDeliverableWebhooks | internal/storage/db_retry.go:12-79 | The earliest unlocked deliverable webhooks up to the limit are claimed, their stale attempts interrupted, and the copies returned equal the stored rows. |
| Database.DB.SelectEarliest | internal/storage/db_retry.go:19-28 | The selection has as many distinct rows as possible within the limit, ordered by retry time or arrival, and none left out is earlier. |
| Database.DB.EarliestIsInQueueOrder | internal/storage/db_retry.go:26 | In rows as they are in every reachable store, a retrying webhook counts from its retry time and any other from its arrival: none that is selected is later than the next one or than one left out. |
| Database.DB.LockDeliveryLease | internal/storage/db_delivery.go:118-131 | Succeeds exactly for the current version of a processing webhook with a running lease. |
| Database.DB.CreateDeliveryAttempt | internal/storage/db_delivery.go:22-46 | One pending attempt with a fresh id, or an error and no change, each in exactly its case. |
| Database.DB.FinishDelivery | internal/storage/db_delivery.go:48-114 | Completes attempt and webhook together in exactly the cases of the specification, and otherwise changes nothing. |
| Database.DB.ResetWebhookDeliveryState | internal/storage/db.go:148-173 | Requeues an existing webhook that is not processing and keeps its lease version; otherwise an error and no change. |
| Database.DB.DeleteWebhook | internal/storage/db.go:175-193 | Removes the webhook with exactly its attempts, unless it is missing or processing. |
| Database.DB.BulkReplayDeadLetters | internal/storage/db_bulk_replay.go:19-59 | Requeues exactly the dead letters among the ids; requeued plus skipped is the number of distinct ids; both input errors in exactly their cases. |
| Database.DB.CleanupExpiredWebhooks | internal/storage/db_retention.go:57-98 | For every batch size, removes exactly the expired unlocked webhooks with their attempts and returns their number; when cancelled, what is removed are the lowest ids, one batch (300 if no size is given) per round. |
| Database.DB.SaveForwardingRule | internal/storage/db_forwarding.go:13-26 | The upsert replaces every column except the paused flag of an existing rule. |
| Database.DB.SetForwardingPaused | internal/storage/db_forwarding.go:28-38 | Changes only the flag of an existing rule; otherwise not found. |
| Database.DB.DeleteForwardingRule | internal/storage/db.go:204-206 | Removes the rule and nothing else. |
| Database.DB.QueuedWebhookCounts | internal/storage/db_forwarding.go:40-56 | Every source with queued webhooks is mapped to their number, and no other source is in the map. |
| Forwarding.ComputeDeadline | internal/forwarder/forwarder.go:153-162 | The deadline of a request is the earlier of its timeout and 5 s before the lease ends. |
| Forwarding.ComputeReport | internal/forwarder/forwarder.go:64-80 | The result that Forward assembles step by step is the one used in every run, for every rule, exchange and cancellation: status, error, response and retry time by the cases of a cancelled worker, no target, a success and a failure below or at the limit. |
| Forwarding.JudgeSuccess | internal/forwarder/forwarder.go:192-221 | An attempt succeeds exactly when a 2xx reply was read without a read error; kept are the headers and the first MiB of the body, a longer one is marked as truncated, and the error names the first thing that failed. |
| Backoff.ComputeRetryDelay | internal/forwarder/forwarder.go:238-255 | The loop computes the wrapped doubling that the lemmas are about. |
| Backoff.SafeBaseIsExact | internal/forwarder/forwarder.go:238-255 | For bases of 1 to 4611686018 s the delay is min(base * 2^(n-1), 30 s), and no product leaves int64. |
| Backoff.NeverOverflowsIff | internal/forwarder/forwarder.go:243-249 | For every positive base, no number of attempts makes a product leave int64 exactly when the base is at most 4611686018 s. |
| Backoff.DelaysExactIffBaseIsSafe | internal/forwarder/forwarder.go:243-249 | For every positive base, all delays are the intended ones exactly when the base is below 30 s or wraps to a first delay of at least 30 s and below 2^62 ns. |
| Backoff.UnsafeBaseExample | internal/forwarder/forwarder.go:244-248 | The next larger base has a negative second delay. |
| Backoff.DelayMonotone | internal/forwarder/forwarder.go:238-255 | Longer bases and later attempts never wait less. |
| LoginLimits.SweepingIsUnobservable | internal/handler/login_limiter.go:91-105 | For all legal sequences of reservations and completions, the sweeping limiter gives the same grants and Retry-After values as one that never deletes an entry, and allows the same sequences. |
| LoginLimits.LimiterConservation | internal/handler/login_limiter.go:48-89 | Pending counts the open reservations, failures plus pending never exceed 10, grants minus aborted, successful, cleared and late ones equal failures plus the window's pending, and an open reservation's entry is never dropped. |
| LoginLimits.OldCompletionOnlyReleases | internal/handler/login_limiter.go:79-83 | In every legal sequence, a completion of a reservation from another or an ended window keeps every entry's failures and window, and lowers the pending count of its own entry only. |
| LoginLimits.RetryAfterIsTheRemainingWindow | internal/handler/login_limiter.go:63-69 | In every legal sequence a refusal names 1 to 900 s: with ten failures the remaining window, rounded up; otherwise one second, and the entry's failures and pending checks are ten together. |
| LoginLimits.RefusalsAreBounded | internal/handler/login_limiter.go:63-69 | No refusal anywhere in a legal sequence is outside 1 to 900 s. |
| LoginLimits.CallsMean | internal/handler/login_limiter.go:48-89 | In every legal sequence a reservation is granted exactly when failures of the running window and pending checks are fewer than ten, a new window lasts 15 minutes, and a completion in its own running window adds, clears or keeps failures by its outcome. |
| LoginLimits.SweepsWhenDue | internal/handler/login_limiter.go:93-105 | Sweeps are at least 15 minutes apart; one that is due forgets every entry that counts nothing, one that is not due forgets none. |
| LoginLimits.TenFailuresLockOut | internal/handler/login_limiter.go:59-66 | After ten failures every reservation of that key is refused until the window ends, in every continuation, whatever is reserved and completed for whichever keys. |
| LoginLimiter.Limiter.Reserve | internal/handler/login_limiter.go:48-72 | For a limiter object after any sequence of calls, the answer is the machine's answer to that sequence with this call, the object follows the machine's run, and every open reservation still points at its key's entry. |
| LoginLimiter.Limiter.Finish | internal/handler/login_limiter.go:74-91 | Completes the open reservation in the object and in the machine's run alike, and closes no other one. |
| LoginLimiter.Limiter.Sweep | internal/handler/login_limiter.go:95-105 | When due, drops exactly the idle expired entries, in any order of visiting, and the entry of every open reservation stays. |
| LocalTime.ResolveLocalTime | internal/handler/date_filter.go:33-61 | Returns an instant exactly when it is the only one that shows the wall time, "twice" exactly when there are several, "missing" exactly when there is none; the scan ends. |
| LocalTime.FallbackAdvancesIff | internal/handler/date_filter.go:51-54 | The January fallback moves the cursor forward exactly when the cursor is in UTC or its location is not in an earlier year than UTC. |
| LocalTime.LastDayBoundIsOk | internal/handler/date_filter.go:51-54 | If a zone's bound fails on the last day of a year in UTC and the offset stays up to the fallback, the fallback leads forward and the scan's needs are met there. |
| LocalTime.LateFailuresAreHarmless | internal/handler/date_filter.go:49-56 | A zone whose bounds are right, or fail only on the last day of a year in UTC with the offset unchanged to the fallback, meets all that the scan needs. |
| LocalTime.StallLastsOneRound | internal/handler/date_filter.go:51-55 | West of Greenwich, a failing bound at the turn of the year leaves the cursor where it is for one round, and the next round moves on by a year. |
| LocalTime.BackwardFallbackCycles | internal/handler/date_filter.go:37-56 | In a zone of constant offset whose bounds fail an hour into the year, the cursor goes from the bound back to New Year and to the bound again. |
| SignatureHeader.ParseHeader | internal/hmacsig/hmacsig.go:74-111 | The loop finds all signatures and the last timestamp, and fails exactly when a timestamp is missing or unreadable or no signature is given. |
| SignatureHeader.VerifyHeader | internal/hmacsig/hmacsig.go:32-64 | The verdict is the one of the specification for every header, payload, time and tolerance. |
| SignatureMeaning.VerdictMeans | internal/hmacsig/hmacsig.go:32-64 | A header passes exactly when it is read, has not expired, and one of its "v1" fields is, in hex of either case, the MAC of the message that belongs to its own timestamp and the payload. |
| SignatureMeaning.SignedMessageLayout | internal/hmacsig/hmacsig.go:66-72 | What is signed is the timestamp's decimal numeral in ASCII, a dot and the payload. |
| SignatureMeaning.SignedMessageIsInjective | internal/hmacsig/hmacsig.go:66-72 | No two pairs of timestamp and payload have the same message. |
| SignatureMeaning.TagIsForOneMessage | internal/hmacsig/hmacsig.go:32-64 | A tag sent with another timestamp or another payload than it was made for is rejected under every tolerance, unless the MAC itself collides on the two messages; with its own it passes unless it has expired. |
| SignatureMeaning.SignedHeaderLayout | internal/hmacsig/hmacsig.go:27-30 | The header that is sent, character by character. |
| SignatureMeaning.ParsedMeans | internal/hmacsig/hmacsig.go:74-111 | Every timestamp must be a number and the last one counts, every "v1" field with a value is a signature, and a bad timestamp is reported before a missing signature. |
| SignatureMeaning.FieldReadIff | internal/hmacsig/hmacsig.go:82-88 | A part is divided at its first equals sign, and the spaces around key and value do not matter. |
| SignatureMeaning.DecodedIff | internal/hmacsig/hmacsig.go:53-57 | A candidate decodes to a tag exactly when it is its lower-case hex form or differs from it only in case. |
| SignatureHeader.SignThenVerify | internal/hmacsig/hmacsig.go:27-64 | A signed header is accepted for every secret, payload and time unless its timestamp has expired, which is the only reason for rejecting it. |
| SignatureHeader.ExpiryIsExactIff | internal/hmacsig/hmacsig.go:38-46 | Computed and true expiry agree under every tolerance exactly when the age fits in an int64 of nanoseconds. |
| SignatureHeader.SignedHeaderAcceptedIff | internal/hmacsig/hmacsig.go:27-64 | A signed header is accepted whenever the tolerance is off or its age is within it; that this is the only case, for every tolerance, is true exactly when the age fits. |
| SignatureHeader.FarTimestampExample | internal/hmacsig/hmacsig.go:43 | A timestamp 9223372037 s away is within every tolerance. |
| SignatureHeader.MoreFieldsKeepAcceptance | internal/hmacsig/hmacsig.go:81-102 | Fields appended to an accepted header never make it rejected unless one of them is a timestamp. |
| SignatureHeader.MoreSignaturesKeepAcceptance | internal/hmacsig/hmacsig.go:97-101 | An appended "v1=" field never turns acceptance into rejection. |
| SignatureHeader.HexRoundTrip | internal/hmacsig/hmacsig.go:48-51 | Decoding a tag's hex form gives the tag. |
| Decimal.ParseFormatted | internal/hmacsig/hmacsig.go:68 | Every int64 survives being formatted and parsed. |
| Decimal.FormattedIffNumeral | internal/hmacsig/hmacsig.go:68 | An integer is written as the one numeral it has without leading zeros. |
| Decimal.ParsedIffSigned | internal/hmacsig/hmacsig.go:90 | A text is read as n exactly when it is an optional sign and digits with that value, within int64. |
| LikePattern.EscapeKeepsMeaning | internal/storage/db_filtered.go:86-89 | For every text and query, the escaped pattern is well formed and matches exactly the texts that contain the query. |
| LikePattern.EscapeKeepsMeaningFolded | internal/storage/db_filtered.go:69-75 | The same for ILIKE, through a case fold that keeps the special characters apart. |
| WebhookSearch.SelectedIff | internal/storage/db_filtered.go:62-84 | A filter never fails on its query, and selects a webhook exactly when source, status, searched texts and arrival time agree with the given fields, with payloads that are no text left out. |
| WebhookSearch.ListingIsDetermined | internal/storage/db_filtered.go:91-104 | The list is the only one that holds each selected webhook once in the order that the sort parameter names, by id or arrival with the id as tie-breaker, descending by id if it names none. |
| Pagination.ParsePagination | internal/handler/webhook.go:130-150 | Accepts exactly limits from 1 to 100 and positive pages that leave room for the next row, with defaults and errors as in the code. |
| Pagination.ParsedMeans | internal/handler/webhook.go:130-150 | A query is accepted with a page and limit exactly when the limit (20 if absent) is 1 to 100, the page (1 if absent) is positive and page * limit is below the largest int; which error the others get. |
| Pagination.AcceptedPagesStayInInt | internal/handler/webhook.go:145-148 | For an accepted page, offset + limit + 1 and the next page's number do not exceed the largest int. |
| Pagination.ListWebhooks | internal/handler/webhook.go:95-128 | A page is the list's slice of that page, with a link exactly when a row follows. |
| Pagination.FollowingLinksListsAll | internal/handler/webhook.go:112-119 | On a frozen store, following the links from page 1 ends and gives the whole list once and in order, exactly when the list's last page is accepted; otherwise it ends with that page's rejection. |

## Left out

- SQL text, GORM, migrations and connection errors: the model has the rows, predicates and locks. A transaction that fails in the database has no effect and appears as a crash of its worker.
- PostgreSQL keeps microseconds; here a stored time is the time that was given, in nanoseconds.
- Lease versions, ids and failure counts are unbounded integers. Ids come from sequences, modelled as sets of values never handed out again.
- Protocol.CreateSucceeds: the two lease checks of one create or finish share one clock reading, in `RowLocks` the later one; a call that fails the earlier one ends like a crash of its worker. The atomic steps do not model the deadline of the call's context, which only allows more runs than the code has.
- Protocol.ClaimOne: claims one webhook, as every worker does; `ClaimBatch.BatchIsSingleClaims` covers larger limits.
- RowLocks.SelectsTargets: a claim's session has one target, which stands for the row its query ends up with; the code's query picks it while it locks.
- Overtaking.PauseHoldsTheQueueIff: a commit that was sent in time may arrive after the deadline of its context; whether the database then still accepts it is left open, as either can happen.
- LocalTime.ResolveLocalTime: takes the timezone as an offset function with a correct ZoneBounds, over an unchanged offset up to a fallback within the scanned 96 hours, because the timezone database is not part of this model; it says nothing of zones in which a fallback leads back.
- LikePattern.EscapeKeepsMeaningFolded: folds case one character at a time; foldings that change a text's length are not covered.
- Pagination.FollowingLinksListsAll: the other query parameters of a link, in particular the canonical form of the dates, are taken to select the same list.
- Pagination.ListWebhooks: returns ids of rows, not their JSON form.
- HMAC and SHA-256 are an arbitrary function with 32-byte results; comparing in constant time is not part of this model.
- The timeout that configuration enforces (at most the lease minus 5 s) is not needed: the theorems hold for every timeout and lease.
- Goroutines, tickers and the poll loop of a worker: workers start claims at any time.
- HTTP handlers, templates, sessions, CSRF, passwords, client addresses, form checks, metrics and `EnsureAdmin`: single checks or library calls.
- `FilteredSummary`, `CountFiltered`, `GetForwardingRules` and `FindByID`: plain queries over the same rows.
