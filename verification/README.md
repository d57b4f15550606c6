# TrusTrove: a verified model of the indexer and its clients

TrusTrove finances invoices on Stellar. An off-chain indexer reads contract events from
Soroban RPC, keeps invoices, an event log and a webhook queue in Postgres, and serves an API;
a web client and an SDK sit on top. This project models the parts whose correctness depends
on whole runs, and proves for-all statements about them.

Layout, one module per component:

- `Invoices`, `Handling`, `Postgres` — the invoice row and its guarded updates, the
  transaction around one event, and the database object that runs its statements.
- `Effects` — what each event name leaves in the database, column by column, when it commits, and
  what it queues for webhook subscribers.
- `Lifecycle`, `Timeline` — invariants of an invoice over any event sequence, and the timeline
  the web client draws from its row.
- `Listener`, `EventIndexer` — polling, confirmation depth, checkpoints, crashes, restarts and
  reorganisations as a state machine, and the listener object that refines it step by step.
- `Boundaries` — the reorganisation guard over whole process lives.
- `Losses` — where the listener's guarantees end: events a poll passes over or a restart skips,
  exactly when, and that they stay lost.
- `DeliveryQueue`, `Overlaps`, `WebhookStore` — leases, several workers with bounded pools, retries and
  dead letters over a discrete clock, and the queue's statements.
- `SlidingWindow`, `InvoiceLimiter`, `TokenBucket`, `RouterLimiter` — the two rate limiters
  behind status 429 (section 4 of RFC 6585) and their background eviction.
- `PageWalk` — the paged invoice listing and the client that walks all of it.
- `Amounts` — the USDC printer and parser.
- `AsyncHooks` — the React hooks' generation-numbered queries and counted mutations.
- `Broadcast` — the SDK's retry, broadcast and polling loops.
- `Nonces` — single-use challenge nonces (SEP-10 Stellar Web Authentication, sections
  "Challenge" and "Token").

Where the source changes state in place the model is a class or a method with loops, and each
is proved equal to a function; the theorems are about those functions over every run.
`dafny verify dfyconfig.toml` checks everything.

## What the proofs found

These promises do not hold of the code as it stands. Each has a counterexample and the exact
condition under which the promise holds.

- A poll can leave an event behind: it ends where its last tip says, whatever it has read and
  deferred. A handled event below that end is left behind exactly when the poll never read it (it
  stops at an empty page or without a cursor, wherever that is) or read it inside the window of that
  page's own tip (`Losses.LeftBehindIff`, `Losses.PassedOverIff`). Once the checkpoint is saved no
  later run ever logs the event (`Losses.LeftBehindForever`, `Losses.EmptyPageLosesEvent`,
  `Losses.RisingTipLosesEvent`).
- The MAX(ledger)+1 fallback skips the rest of a half-processed ledger for good
  (`Losses.FallbackResumeIff`, `Losses.FallbackForever`, `Losses.FallbackResumeLosesEvent`).
- With a dispatcher attached an attestation event cannot commit (`Handling.CommitsIff`): no event
  from it on is ever logged and the checkpoint never passes its ledger (`Losses.AttestationBlocks`).
- With the default worker (50 rows, 8 slots, 10 s, 60 s lease) two workers can post the same
  delivery at once (`Overlaps.DefaultsOverlap`); the exact bound is `Overlaps.ExclusiveIff`.
- The invoice limiter's sweep forgets live attempts: 5 per hour becomes 6 in an hour
  (`SlidingWindow.DefaultsOverLimit`); the exact condition is `SlidingWindow.WindowBoundIff`.
  Without a sweep the shipped limiter keeps its bound (`SlidingWindow.DefaultsUnswept`).
- Rows that arrive between COUNT(*) and the page query of one request can push an invoice out of
  a walk. While newer rows arrive, some row of the start is missing exactly when the last page query
  saw more rows than the pages requested so far hold (`PageWalk.WalkIncompleteIff`,
  `PageWalk.LateInsertLosesRow`); which rows, says `PageWalk.MissedIff`.
- A page number whose offset overflows is served another page, exactly when the wrapped offset
  falls inside the listing (`PageWalk.WrongPageIff`, `PageWalk.HugePageAliases`).
- An invoice that defaulted before delivery was confirmed is drawn with steps that never happened
  (`Timeline.CompleteMeansHappenedIff`, `Timeline.EarlyDefaultDrawn`).
- A client can log in exactly when it has an address that is not the server's own
  (`Nonces.LogInPossibleIff`).

## Model

| member | source | states |
|---|---|---|
| `Listener.CrashEquivalence` | indexer/listener/soroban.go:326-384 | from any database and any first start, its checkpoint saved or not: over every run of polls with failing events, failing requests, lost checkpoint writes and restarts from a checkpoint, the invoice, log and delivery tables are one left fold of the handler over the not yet logged events of a prefix of the chain |
| `Listener.NoLoss` | indexer/listener/soroban.go:457-550 | in every reachable state, from any database, each event from the first start up to the current ledger and the checkpoint is logged or of a skipped kind, when no tip rises after a page that deferred an event and pages run out only at the tip |
| `Listener.RunKeeps` | indexer/listener/soroban.go:275-385 | the invariant behind both, kept by every action sequence from any database: fold over what was new in a prefix, nothing pending below the current ledger, checkpoint unsaved or behind it |
| `Listener.StepKeeps` | indexer/listener/soroban.go:334-384 | one tick or restart keeps that invariant and never shrinks the indexed prefix |
| `Listener.RangeKeeps` | indexer/listener/soroban.go:405-553 | a poll that succeeds never moves back and leaves nothing below where it ends |
| `Listener.PollKeeps` | indexer/listener/soroban.go:434-531 | a whole paging loop over honest pages extends the indexed prefix and, on success, covers every event outside the window, whatever fails on the way; the tip may rise after pages that deferred nothing |
| `Listener.PageKeeps` | indexer/listener/soroban.go:457-523 | one page extends the indexed prefix, also when it overlaps events already indexed |
| `Listener.ApplyKeeps` | indexer/listener/soroban.go:493-523 | applying a page event by event with stale look-up results keeps the fold, up to the first failing event |
| `Losses.PassedOverIff` | indexer/listener/soroban.go:469-547 | with no assumption on the tip, a successful poll ends past an unlogged event that it read exactly when the last page's tip is past the window of an event its own page deferred |
| `Losses.LeftBehindIff` | indexer/listener/soroban.go:434-550 | with no assumption on how the tip moves or where pages stop, an unlogged handled event below where a successful poll ends is left behind exactly when it was not read or was read inside the window of its page's own tip |
| `Losses.PollReads` | indexer/listener/soroban.go:434-531 | a successful poll over consecutive slices logs a handled chain event exactly when it was logged before or was read under a tip whose window it had cleared |
| `Losses.LeftBehindForever` | indexer/listener/soroban.go:373-382 | an unlogged event below where a tick ends is below the checkpoint it saves, and no later ticks and restarts ever log it |
| `Losses.GoneForever` | indexer/listener/soroban.go:275-385 | once an unlogged event is behind the process and behind every place a restart would resume at, it stays so through every run |
| `Losses.HonestNeverRecovers` | indexer/listener/soroban.go:275-385 | nor does any later run of an honest RPC |
| `Losses.PollLogs` | indexer/listener/soroban.go:434-531 | a successful poll logs exactly the handled events that cleared the window of their own page |
| `Losses.PollLast` | indexer/listener/soroban.go:444-446 | a successful poll reports the tip of the last page it read |
| `Losses.RisingTipSkips` | indexer/listener/soroban.go:537-550 | whenever the tip rises past a deferred event between two pages, the event is skipped and the poll still succeeds |
| `Losses.RisingTipLosesEvent` | indexer/listener/soroban.go:537-550 | a concrete tick, depth 3 and tips 100 then 105, that saves checkpoint 103 over ledger 98, which no later run logs |
| `Losses.EmptyPageLosesEvent` | indexer/listener/soroban.go:447-449 | a concrete tick with one empty page and a cursor, tip 100 and depth 3, that saves checkpoint 98 over ledger 95, which no later run logs |
| `Losses.FallbackResumeIff` | indexer/listener/soroban.go:296-302 | after a restart at MAX(ledger)+1 over any database that process leaves nothing behind, over all its honest ticks, exactly when no handled, unlogged event is at or before the newest logged ledger |
| `Losses.NewestOnly` | indexer/listener/soroban.go:296-302 | when the log began empty such an event is always in the newest logged ledger itself |
| `Losses.FallbackForever` | indexer/listener/soroban.go:296-302 | what such a restart leaves behind is never logged by any later run |
| `Losses.MaxIsGreatest` | indexer/db/queries.go:646-654 | MAX(ledger) bounds every logged ledger and is one of them |
| `Losses.FallbackResumeLosesEvent` | indexer/listener/soroban.go:296-302 | two events in one ledger, a stop between them: no later run ever logs the second |
| `Losses.AttestationBlocks` | indexer/listener/soroban.go:493-523 | with a dispatcher, in every honest run from any database nothing new is logged from an unlogged attestation on and the checkpoint never passes its ledger |
| `Losses.UnconfiguredJumps` | indexer/listener/soroban.go:420-428 | without contracts a poll jumps to the tip, backwards too |
| `Listener.ConfirmationSafety` | indexer/listener/soroban.go:469-550 | in every run from any database, with no assumption on order, honesty or how the tip moves beyond each poll's first answer reporting one: with a positive depth every log row written comes from an event at least depth behind the tip it was applied under; when restarts find a checkpoint, the checkpoint stays at or below max(start, top tip - depth + 1) and the recorded boundary below the current ledger |
| `Listener.CheckpointMonotone` | indexer/listener/soroban.go:373-382 | the saved checkpoint never decreases along a run, whatever the RPC answers and wherever restarts resume, from an unsaved checkpoint too |
| `Listener.FinalizedNeverFalls` | indexer/listener/soroban.go:241-255 | no tick lowers the recorded boundary |
| `Listener.ReorgHalts` | indexer/listener/soroban.go:335-345 | after a tick that sees a changed hash, every later tick leaves tables, checkpoint and trace as they were |
| `Boundaries.TickMeans` | indexer/listener/soroban.go:334-384 | a tick in full: where it ends, what it saves, when the boundary moves and to which hash, and when it halts |
| `Boundaries.RestartMeans` | indexer/listener/soroban.go:289-312 | a restart resumes at the checkpoint, else past the newest logged ledger, else at the tip, and has no boundary |
| `Boundaries.BoundaryHash` | indexer/listener/soroban.go:220-255 | in every process life the process holds for its boundary ledger the hash the RPC gave at the last tick that moved the boundary, and nothing before any such tick |
| `Boundaries.HaltsIff` | indexer/listener/soroban.go:220-238 | the next tick of a running life halts exactly when the RPC gave a non-empty hash at that last move and now gives another one |
| `Boundaries.NextTickHalts` | indexer/listener/soroban.go:334-378 | after a tick that read hash h for a new boundary, the next tick that reads a hash halts exactly when it is not h |
| `Listener.BackfillExact` | indexer/listener/soroban.go:393-403 | a backfill of any database is a fold over the not yet logged ones of consecutive chain events inside the range, complete up to the window when it succeeds |
| `EventIndexer.EventListener.ApplyPending` | indexer/listener/soroban.go:500-523 | the event loop changes the tables and the trace as the specification does, up to the first failure |
| `EventIndexer.EventListener.SelectPending` | indexer/listener/soroban.go:457-488 | the two filter loops of a page select the in-range, confirmed events in order and tell whether the range was passed |
| `EventIndexer.EventListener.ProcessPage` | indexer/listener/soroban.go:490-523 | look-up and event loop of one page, with a failing look-up |
| `EventIndexer.EventListener.PollLoop` | indexer/listener/soroban.go:434-531 | the paging loop equals the recursive poll on every script of answers |
| `EventIndexer.EventListener.PollEventsRange` | indexer/listener/soroban.go:405-553 | the whole poll with its three ways to choose the next ledger |
| `EventIndexer.EventListener.VerifyFinalizedLedger` | indexer/listener/soroban.go:220-238 | reports a reorganisation exactly when a hash was recorded, one was read, and they differ |
| `EventIndexer.EventListener.RecordFinalizedLedger` | indexer/listener/soroban.go:241-255 | the boundary moves forward only, and only with the hash that was read for it |
| `EventIndexer.EventListener.OnTick` | indexer/listener/soroban.go:334-384 | one tick of the object is one step of the state machine |
| `EventIndexer.EventListener.OnRestart` | indexer/listener/soroban.go:275-312 | a restart resumes at the checkpoint, else past the newest logged ledger, else at the tip |
| `EventIndexer.EventListener.BackfillRange` | indexer/listener/soroban.go:393-403 | rejects an empty or non-positive range, otherwise polls it without touching the checkpoint |
| `Handling.HandleTwice` | indexer/listener/handlers.go:532-628 | handling a committed event again at once commits and changes no table |
| `Handling.CommitWrites` | indexer/listener/handlers.go:572-625 | a commit leaves the event's log row, adds rows of no other event and rewrites no existing log or delivery row; a skipped event writes nothing |
| `Handling.CommitFansOut` | indexer/webhook/dispatcher.go:54-98 | an applied event has a delivery row for every active subscription to its public type |
| `Handling.EnqueueAdds` | indexer/db/webhooks.go:219-235 | the fan-out adds exactly one row per wanting subscription and keeps existing rows |
| `Handling.EnqueueAgain` | indexer/db/webhooks.go:219-235 | enqueueing the same event again changes nothing, whatever the payload |
| `Handling.CommitsIff` | indexer/listener/handlers.go:572-625 | an event with an invoice part commits exactly when that part did not fail and it is not an attestation under a dispatcher; no other type is refused by the fan-out |
| `Handling.WriteTwice` | indexer/db/queries.go:52-71 | the same invoice statement a second time is stale or rewrites the same row |
| `Effects.CreateInserts` | indexer/listener/handlers.go:93-152 | a create event inserts a Created invoice with the id, issuer, buyer, face value, due date and close time it carries, unless one exists; no other row changes |
| `Effects.ListMoves` | indexer/listener/handlers.go:154-181 | a list event moves a Created invoice to Listed with its discount, at most 5000, and changes nothing else |
| `Effects.FundMoves` | indexer/listener/handlers.go:183-213 | a fund event moves a Listed invoice to Funded with its amount, at most the face value, and its time |
| `Effects.ShipMoves` | indexer/listener/handlers.go:215-234 | a ship event moves a Funded invoice to Active, shipped and issuer-confirmed |
| `Effects.ConfirmMoves` | indexer/listener/handlers.go:236-255 | a confirmation moves an Active invoice to Confirmed, buyer-confirmed with its time |
| `Effects.RepayMoves` | indexer/listener/handlers.go:257-279 | a repay event moves a Confirmed invoice to Repaid with its time |
| `Effects.DefaultMoves` | indexer/listener/handlers.go:281-303 | a default event moves a Funded, Active or Confirmed invoice to Defaulted and touches nothing else in it |
| `Effects.AttestWrites` | indexer/listener/handlers.go:305-343 | an attestation writes agent, score and time to the invoice in any status, and under a dispatcher nothing |
| `Effects.OthersLeave` | indexer/listener/handlers.go:557-572 | every other event leaves every invoice alone |
| `Effects.WholeLife` | indexer/listener/handlers.go:540-572 | create, attest, list, fund, ship, confirm and repay events with any values and times leave exactly the expected Repaid row |
| `Effects.CreateCommits` | indexer/listener/handlers.go:93-152 | a create event commits exactly when it carries an id, an issuer and a buyer |
| `Effects.ListCommits` | indexer/listener/handlers.go:154-181 | a list event commits exactly when its row exists, its value decodes and a Created row can take the discount |
| `Effects.FundCommits` | indexer/listener/handlers.go:183-213 | a fund event commits exactly when its row exists, its value decodes and a Listed row can take the amount |
| `Effects.StatusCommits` | indexer/listener/handlers.go:215-303 | ship, confirm, repay and default events commit exactly when their row exists, stale or not |
| `Effects.AttestCommits` | indexer/listener/handlers.go:305-343 | an attestation commits exactly when its row exists, its score is in range and no dispatcher is attached |
| `Effects.PoolCommits` | indexer/listener/handlers.go:388-473 | pool events commit exactly when their value decodes and, for liquidity providers, an account is named |
| `Effects.RegistrationLogs` | indexer/listener/handlers.go:345-372 | a registration is logged once with its address, or retried when it has none |
| `Effects.UnknownIgnored` | indexer/listener/handlers.go:569-571 | an unknown event changes nothing, an event without a name is retried |
| `Effects.StaleOnlyLogs` | indexer/listener/handlers.go:573-576 | a stale event is logged and nothing more |
| `Effects.LogsItself` | indexer/listener/handlers.go:609-615 | a committed event leaves a log row with its own contract, ledger, close time and name |
| `Effects.LogsData` | indexer/listener/handlers.go:573-615 | the log data are the structured fields of an applied event and the raw value of a stale one |
| `Effects.FieldsMean` | indexer/listener/handlers.go:582-607 | which fields each event carries into the log and the payload |
| `Effects.QueuesPayload` | indexer/webhook/dispatcher.go:54-98 | an applied event queues one delivery for each active subscription to its public type, event name by event name, with its id, contract, ledger and close time and the invoice as the same transaction left it |
| `Postgres.Database.HandleEvent` | indexer/db/db.go:37-57 | succeeds exactly when no statement fails and the handler accepts; then the tables are the handler's, otherwise all three are as before, wherever the failure was |
| `Postgres.Database.Statements` | indexer/listener/handlers.go:533-628 | the statements in order: invoice, log, deliveries, with the stale, skipped and registration exits |
| `Postgres.Database.EnqueueDeliveries` | indexer/webhook/dispatcher.go:54-98 | the insert loop equals the fan-out; an unsupported type is an error |
| `Postgres.Database.ApplyInvoice` | indexer/listener/handlers.go:93-343 | each handler's decode errors, guarded update and resulting table |
| `Postgres.Database.UpdateInvoice` | indexer/db/queries.go:52-71 | the guarded update, its constraint check, and which error an untouched row gives |
| `Postgres.Database.UpdateAttestation` | indexer/db/queries.go:388-402 | the unguarded attestation update and its two refusals |
| `Postgres.Database.InsertInvoice` | indexer/db/queries.go:208-247 | an existing invoice keeps its row |
| `Postgres.Database.AreEventsProcessed` | indexer/db/queries.go:543-566 | exactly the ids already logged |
| `Postgres.Database.UpsertCheckpoint` | indexer/db/queries.go:669-677 | a failed write leaves the old checkpoint |
| `Lifecycle.LifecycleInvariant` | indexer/db/queries.go:334-386 | over any event sequence, in any order and with duplicates, rows keep their identity and history, satisfy their constraints, and never lose rank |
| `Lifecycle.AtMostFiveTransitions` | indexer/db/queries.go:334-386 | each status change strictly raises the rank, so an invoice has at most five |
| `Lifecycle.StatusImpliesHistory` | indexer/listener/handlers.go:127-141 | Repaid implies funded, shipped, buyer-confirmed and repaid times; Defaulted implies funded and not repaid; buyer confirmation implies issuer confirmation; funding is at most the face value |
| `Lifecycle.DeliverKeeps` | indexer/listener/handlers.go:532-628 | one event moves each row forward once or leaves its lifecycle columns alone; new rows are Created |
| `Lifecycle.GuardedWriteKeeps` | indexer/db/queries.go:334-386 | each of the six guarded updates moves forward and keeps the history |
| `Lifecycle.ReplayChangesNoInvoice` | indexer/db/queries.go:52-71 | replaying an applied create, list, fund, ship, confirm, repay or default event after any other events changes no invoice, even without the id check |
| `Lifecycle.AbsorbedStays` | indexer/db/queries.go:334-386 | once an event's effect is in the table no later event takes it out |
| `Timeline.TimelineAgreement` | apps/web/lib/invoiceTimeline.ts:61-82 | on every reachable row the flag-based index equals the status table, and it never decreases along a run |
| `Timeline.IndexIsStatus` | apps/web/lib/invoiceTimeline.ts:72-82 | the flags and the table agree on every row that keeps its history |
| `Timeline.IndexIsFurthest` | apps/web/lib/invoiceTimeline.ts:72-82 | on every row the index is the furthest step that its status, a confirmation or a shipping time speaks for |
| `Timeline.CompleteIsPrefix` | apps/web/lib/invoiceTimeline.ts:190-212 | the complete steps are a prefix ending at the one current step |
| `Timeline.CompleteMeansHappenedIff` | apps/web/lib/invoiceTimeline.ts:72-82 | the steps drawn complete are the steps that happened exactly when the invoice did not default before delivery was confirmed |
| `Timeline.EarlyDefaultDrawn` | apps/web/lib/invoiceTimeline.ts:72-82 | a create, list, fund, default run ends with all seven steps complete though shipping and confirmation never happened |
| `Timeline.TimesCaused` | indexer/db/queries.go:334-386 | on every reachable row each time column is the close time of the event that brought its status |
| `Timeline.DrawnTimes` | apps/web/lib/invoiceTimeline.ts:84-107 | on every reachable row a time drawn with a step is the close time of the event that caused it, and every step that happened has one but for the listing, a default and a close time of zero |
| `Overlaps.ExclusiveIff` | indexer/webhooks/worker.go:161-180 | no row is ever in flight on two workers, for any number of workers and interleavings, exactly when ceil(batch / slots) attempt times fit in the lease |
| `DeliveryQueue.LeaseExclusivity` | indexer/db/webhooks.go:254-290 | with such a lease every reachable state is exclusive |
| `DeliveryQueue.CleanExclusive` | indexer/db/webhooks.go:254-290 | whatever the lease, two workers attempt one row only after a claim took a row that some batch still had open |
| `DeliveryQueue.LongLeaseCleanly` | indexer/db/webhooks.go:254-290 | a long enough lease rules such claims out of every run |
| `DeliveryQueue.StartsInTime` | indexer/webhooks/worker.go:161-180 | in every run, whatever the lease, item i of a batch starts within floor(i / slots) attempt times of the claim |
| `DeliveryQueue.OverByLease` | indexer/webhooks/worker.go:161-180 | with a long enough lease no attempt outlives it |
| `Overlaps.ShortLeaseOverlaps` | indexer/webhooks/worker.go:161-180 | for every shorter lease there is a run in which two workers attempt one row |
| `Overlaps.DefaultsOverlap` | indexer/webhooks/worker.go:44-53 | the shipped defaults have such a run |
| `DeliveryQueue.DeliveryAccounting` | indexer/webhooks/worker.go:230-260 | in every run without such claims, whatever the lease: dead_letter exactly when max_attempts failures were recorded, delivered exactly when the last outcome was 2xx, pending rows count their failures and have attempts left |
| `DeliveryQueue.FailureBacksOff` | indexer/webhooks/worker.go:230-260 | the k-th recorded failure frees the row and schedules its next attempt base * 2^k later, or dead-letters it when it was the last |
| `DeliveryQueue.RetryOnSchedule` | indexer/webhooks/worker.go:251-258 | in every run without claims of open rows, a pending row whose k-th failure was recorded at t is taken by no claim before t + base * 2^k, held by nobody until then, and ready at that time if its subscription is active; no claim takes a row of a disabled one |
| `DeliveryQueue.TerminalIsFinal` | indexer/db/webhooks.go:314-371 | in the same runs delivered and dead-lettered rows are never claimed and never written again, only deleted |
| `DeliveryQueue.AbandonedBecomesClaimable` | indexer/db/webhooks.go:254-290 | in every run a row left by a dead worker is claimable once a lease has passed and its retry time has come |
| `DeliveryQueue.StepKeeps` | indexer/webhooks/worker.go:145-260 | every step of every worker keeps the queue invariant, deletions of rows in flight and the one launch after a cancellation included, unless a claim takes an open row |
| `DeliveryQueue.AdvanceBatch` | indexer/webhooks/worker.go:161-180 | the scheduling argument: when all slots are busy time cannot pass beyond the next item's latest start |
| `DeliveryQueue.StartByClosed` | indexer/webhooks/worker.go:161-180 | the latest start of item i in closed form |
| `WebhookStore.Store.ClaimPendingDeliveries` | indexer/db/webhooks.go:254-290 | claims at most the limit, only ready rows that no other statement holds, earliest retry time first, leaves such a row out only when full, locks exactly the claimed rows; rejects a non-positive limit |
| `WebhookStore.Store.EarliestUpTo` | indexer/db/webhooks.go:254-290 | the earliest candidates without repetition, all of them when they fit the limit |
| `WebhookStore.Store.Earliest` | indexer/db/webhooks.go:254-290 | a candidate no other candidate precedes |
| `WebhookStore.Store.MarkDeliverySuccess` | indexer/db/webhooks.go:314-330 | counts the attempt, delivers and unlocks that row alone; a deleted row is no row to update |
| `WebhookStore.Store.MarkDeliveryRetry` | indexer/db/webhooks.go:332-357 | counts the attempt and reschedules, or dead-letters by the row's own counter; a deleted row is no row to update |
| `WebhookStore.Store.MarkDeliveryDeadLetter` | indexer/db/webhooks.go:359-371 | dead-letters and unlocks that row without counting; a deleted row is no row to update |
| `WebhookStore.Store.HandleFailure` | indexer/webhooks/worker.go:230-260 | from the claimed delivery's counters: dead-letters on the last attempt, else pending again at now + base * 2^attempt |
| `WebhookStore.Backoff` | indexer/webhooks/worker.go:251-255 | the shifted delay is base * 2^n |
| `SlidingWindow.WindowBoundIff` | indexer/middleware/invoice_rate_limiter.go:163-174 | at most `limit` admissions per client in every window of every run with sweeps, exactly when the window is at most one tick over the idle time |
| `SlidingWindow.WindowBound` | indexer/middleware/invoice_rate_limiter.go:78-109 | that bound, for any call sequence and any window start, in every run whose sweeps forget no client in mid-window: every run when the window fits, every run without sweeps |
| `SlidingWindow.DefaultsUnswept` | indexer/middleware/invoice_rate_limiter.go:78-109 | the shipped limiter keeps 5 per hour in every run without a sweep |
| `SlidingWindow.EarlySweepOverLimit` | indexer/middleware/invoice_rate_limiter.go:163-174 | for every longer window a run with limit + 1 admissions in one window |
| `SlidingWindow.DefaultsOverLimit` | indexer/middleware/invoice_rate_limiter.go:163-174 | the shipped values admit 6 in an hour |
| `SlidingWindow.RunTracks` | indexer/middleware/invoice_rate_limiter.go:78-109 | along every such run a bucket's log agrees with the admissions still in the window |
| `SlidingWindow.AdmitsIffRemaining` | indexer/middleware/invoice_rate_limiter.go:113-144 | a call is admitted exactly when attempts remain |
| `SlidingWindow.RemainingIsMost` | indexer/middleware/invoice_rate_limiter.go:113-144 | remaining is the most calls that would all be admitted at this instant |
| `SlidingWindow.ResetIsFirst` | indexer/middleware/invoice_rate_limiter.go:125-144 | the reset time is the first at which one of the attempts that count now no longer does |
| `SlidingWindow.ResetIsTight` | indexer/middleware/invoice_rate_limiter.go:125-144 | after a rejection a lone retry is admitted exactly from the reported reset time on, whatever others do, unless a sweep forgets the client in mid-window |
| `InvoiceLimiter.CompactInPlace` | indexer/middleware/invoice_rate_limiter.go:93-101 | compaction in the same storage keeps exactly the live timestamps in order |
| `InvoiceLimiter.Compact` | indexer/middleware/invoice_rate_limiter.go:93-101 | the compacted log is the live part of the log |
| `InvoiceLimiter.InvoiceRateLimiter.Allow` | indexer/middleware/invoice_rate_limiter.go:78-109 | answer and new map are the specification's |
| `InvoiceLimiter.InvoiceRateLimiter.RemainingAttempts` | indexer/middleware/invoice_rate_limiter.go:113-144 | the counting loop gives the remaining attempts and the reset time of the live log |
| `InvoiceLimiter.InvoiceRateLimiter.EvictStale` | indexer/middleware/invoice_rate_limiter.go:163-174 | in any visiting order exactly the idle clients are dropped |
| `TokenBucket.TokenBound` | indexer/api/router.go:179-210 | a client gets at most burst + rps * (t - s) admissions in [s, t] of any run without capacity eviction whose sweeps drop only full buckets: every run when a bucket refills within the idle time, every run without sweeps |
| `TokenBucket.UnsweptBound` | indexer/api/router.go:179-210 | without sweeps the bound holds however slowly buckets refill |
| `TokenBucket.TokenBoundIff` | indexer/api/router.go:244-255 | the bound holds in every interval of every run exactly when a bucket refills within the idle time |
| `TokenBucket.SlowRefillOverspends` | indexer/api/router.go:244-255 | otherwise a sweep lets a client have two bursts where it has earned less |
| `TokenBucket.Budget` | indexer/api/router.go:179-210 | admissions since s plus tokens left never exceed a burst plus the tokens earned since s |
| `TokenBucket.SweepInvisibleIff` | indexer/api/router.go:244-255 | sweeping changes no answer of any run exactly when a bucket refills within the idle time |
| `TokenBucket.RunsAlike` | indexer/api/router.go:244-255 | runs with and without sweeps give the same answers |
| `TokenBucket.SlowRefillShows` | indexer/api/router.go:244-255 | when a bucket cannot refill in time a sweep changes an answer |
| `TokenBucket.ShippedSweepInvisible` | indexer/api/router.go:412 | with burst twice the rate and ten minutes idle, sweeping never shows |
| `RouterLimiter.PerClientRateLimiter.Allow` | indexer/api/router.go:179-210 | the answer is always the uncapped limiter's; so is the map, unless a new client meets a full map, when one oldest bucket is missing; the map stays within its cap |
| `RouterLimiter.PerClientRateLimiter.Draw` | indexer/api/router.go:197-209 | refill capped at the burst, then one token if there is one |
| `RouterLimiter.PerClientRateLimiter.EvictOldest` | indexer/api/router.go:212-229 | drops exactly one bucket, and no bucket is older |
| `RouterLimiter.PerClientRateLimiter.SweepStale` | indexer/api/router.go:244-255 | drops exactly the buckets idle for longer than the limit |
| `PageWalk.WalkComplete` | apps/web/lib/api.ts:467-490 | while matching rows only arrive or change in place between requests and stay within 10,000, a walk that ends returns every row present at its start exactly once |
| `PageWalk.WalkExact` | apps/web/lib/api.ts:467-490 | with nothing changing the result is the filtered table in server order, exactly up to 10,000 rows, and its first 10,000 beyond |
| `PageWalk.WalkSound` | apps/web/lib/api.ts:467-490 | no id twice, and only matching rows that some request showed |
| `PageWalk.WalkLatest` | apps/web/lib/api.ts:481-484 | every row of a finished walk is the version served by the last request that served its id |
| `PageWalk.WalkOrder` | apps/web/lib/api.ts:481-489 | the rows of a finished walk stand in the order in which their ids were first served |
| `PageWalk.StopsFirst` | apps/web/lib/api.ts:474-487 | a walk makes its requests up to the first that fails, serves nothing, is the last announced or is the hundredth, and fails exactly when that one fails |
| `PageWalk.PlacesRise` | indexer/db/queries.go:296-307 | while matching rows stay, a row's place in the order never moves towards the front |
| `PageWalk.ArrivalsBetweenRequests` | indexer/db/queries.go:289-307 | when rows arrive only between requests the count announces every page |
| `PageWalk.MissedIff` | apps/web/lib/api.ts:467-490 | while matching rows stay, whatever arrives and whenever, a walk that ends misses a row of its start exactly when at every request the row lay behind the page requested |
| `PageWalk.WalkIncompleteIff` | apps/web/lib/api.ts:467-490 | while matching rows stay, newer ones arrive whenever they like and the oldest stays last, a walk that ends is missing some row of its start exactly when its last page query saw more rows than the pages it had requested |
| `PageWalk.LateInsertLosesIff` | indexer/db/queries.go:289-307 | the case of one newer row between the last request's count and page query: the oldest row is lost exactly when the row count is a multiple of the page size |
| `PageWalk.LateInsertLosesRow` | indexer/db/queries.go:289-307 | a hundred invoices and one more between the two queries: one of the hundred is missing |
| `PageWalk.ViewMeans` | indexer/db/queries.go:272-307 | the query returns exactly the matching rows, newest first and ties by id, as many as the count |
| `PageWalk.ViewSpelled` | indexer/db/queries.go:272-307 | the listing in the columns' own terms: which rows match, newer first, ties by the greater id |
| `PageWalk.HandleGetInvoices` | indexer/api/handlers_invoices.go:68-124 | which requests are refused, which fail, and the page, total, clamped limit and page count of the rest, with 64-bit offset arithmetic |
| `PageWalk.PagesCover` | indexer/api/handlers_invoices.go:97-115 | for any page size pages 1 to totalPages, joined, are the listing, and later pages are empty |
| `PageWalk.OffsetExact` | indexer/api/handlers_invoices.go:97 | the offset is right exactly when it fits a machine integer |
| `PageWalk.WrapMeans` | indexer/api/handlers_invoices.go:97 | wrapping keeps the residue modulo 2^64 in machine range |
| `PageWalk.WrongPageIff` | indexer/api/handlers_invoices.go:97 | for every listing, page and limit, an answered request is served another page exactly when its offset overflows and wraps to a place inside the listing |
| `PageWalk.HugePageAliases` | indexer/api/handlers_invoices.go:97 | page 2^62 + 1 of size 4 is served the first page of any non-empty listing |
| `PageWalk.GetAllInvoices` | apps/web/lib/api.ts:467-490 | the client's loop equals the recursive walk on every answer sequence, failed requests included |
| `Amounts.ParserMeans` | packages/sdk/src/amounts.ts:55-71 | fromUsdc returns v exactly on white space, a decimal numeral worth v, white space, where v is the value times 10^7 truncated toward zero for any number of digits; every other text is an error |
| `Amounts.SpaceCodes` | packages/sdk/src/amounts.ts:56 | the white space that trimming drops, by code point |
| `Amounts.PrintParse` | packages/sdk/src/amounts.ts:23-35 | fromUsdc(toUsdc(x)) is x truncated toward zero to a multiple of 100000 |
| `Amounts.ParsePrint` | packages/sdk/src/amounts.ts:55-71 | toUsdc(fromUsdc(s)) is s for every canonical two-decimal string |
| `Amounts.CanonicalIff` | packages/sdk/src/amounts.ts:23-35 | the printer's outputs are exactly the canonical strings |
| `Amounts.PaddingTruncates` | packages/sdk/src/amounts.ts:65-69 | padding or cutting the fraction to seven digits is multiplying by 10^7 and truncating |
| `Amounts.CentsMean` | packages/sdk/src/amounts.ts:28-31 | the two printed digits are the whole cents |
| `AsyncHooks.LoadingExact` | packages/sdk-react/src/async.ts:41-72 | isLoading is true exactly until the newest run settles; a run invalidated by a cleanup never clears it |
| `AsyncHooks.SettleWritesIff` | packages/sdk-react/src/async.ts:41-62 | a settlement writes its outcome when its run is the last start with no cleanup since, and changes nothing otherwise |
| `AsyncHooks.WritersRise` | packages/sdk-react/src/async.ts:41-62 | in every interleaving the runs that write strictly increase |
| `AsyncHooks.GenerationsMean` | packages/sdk-react/src/async.ts:41-72 | the generation check holds for exactly the newest run, and exactly the other runs have been aborted |
| `AsyncHooks.DataExact` | packages/sdk-react/src/async.ts:53-55 | data is the value of the last successful write |
| `AsyncHooks.ErrorExact` | packages/sdk-react/src/async.ts:52-59 | an error is shown exactly when the newest run settled by failing, and is its error |
| `AsyncHooks.AsyncQuery.BeginRun` | packages/sdk-react/src/async.ts:41-53 | a start supersedes and aborts the previous run and clears the error |
| `AsyncHooks.AsyncQuery.SettleRun` | packages/sdk-react/src/async.ts:54-62 | the two generation checks around a settlement |
| `AsyncHooks.AsyncQuery.CleanUp` | packages/sdk-react/src/async.ts:65-71 | a cleanup invalidates and aborts, and leaves the shown state |
| `AsyncHooks.PendingExact` | packages/sdk-react/src/async.ts:99-115 | the counter is the number of calls out, so isPending holds exactly while there is one |
| `AsyncHooks.MutationErrorExact` | packages/sdk-react/src/async.ts:99-112 | a mutation shows an error exactly when the last call or failed return was that failure |
| `AsyncHooks.AsyncMutation.BeginCall` | packages/sdk-react/src/async.ts:99-102 | a call counts itself in and clears the error |
| `AsyncHooks.AsyncMutation.EndCall` | packages/sdk-react/src/async.ts:103-112 | a return counts itself out and reports idle only when none is left |
| `Broadcast.AtMostOneQueued` | packages/sdk/src/base.ts:366-396 | at most one send can have left the transaction with the RPC, it is the last, and there is none exactly when the caller is told refused or busy |
| `Broadcast.SendsFixed` | packages/sdk/src/base.ts:366-396 | the answers alone fix the number of sends |
| `Broadcast.BroadcastTx` | packages/sdk/src/base.ts:366-396 | between one and max(1, maxAttempts) sends, all but the last answered TRY_AGAIN_LATER; PENDING and DUPLICATE give that hash, ERROR refuses, a transport error ends it, and busy ends it at the limit; pauses double |
| `Broadcast.WithRetry` | packages/sdk/src/base.ts:219-240 | retries network errors only, at most maxAttempts, returns or throws the deciding try, pauses double |
| `Broadcast.Poll` | packages/sdk/src/base.ts:335-349 | at most 30 status reads, all but the last NOT_FOUND, and which outcome the last one gives |
| `Broadcast.WriteContract` | packages/sdk/src/base.ts:305-350 | nothing is sent unless every earlier step succeeded; a hash is returned only for a transaction the RPC took and a status read saw succeed, and it is the RPC's hash |
| `Nonces.AcceptedIff` | indexer/auth/challenge.go:120-207 | over every run a submission logs in exactly the client its one operation names, exactly when source, operation, name, nonce, time bounds, hash and both signatures are in order and the last thing that happened to its nonce is an unexpired issue; that client is never the server |
| `Nonces.DeniedFor` | indexer/auth/challenge.go:120-207 | a submission is denied for the first check in order that it fails, and for its nonce only when it fails none |
| `Nonces.StoreMeans` | indexer/auth/challenge.go:46-70 | the store holds a nonce unexpired exactly when the history says so: pruning drops no live nonce |
| `Nonces.RedeemedAtMostIssued` | indexer/auth/challenge.go:46-70 | in any interleaving, at every point, redemptions of a nonce never exceed its issues |
| `Nonces.NoSecondUse` | indexer/auth/challenge.go:200-207 | a nonce presented once is refused until it is issued again, however the first presentation ended |
| `Nonces.LogInPossibleIff` | indexer/auth/challenge.go:120-198 | some submission passes every check before the nonce in a client's name exactly when that client has an address and it is not the server's own |
| `Nonces.ServerIsNoClient` | indexer/auth/challenge.go:173-198 | a log-in in the server's own name always fails and leaves the store unchanged |
| `Nonces.NonceStore.PutNonce` | indexer/auth/challenge.go:46-56 | records the nonce and drops exactly the expired ones |
| `Nonces.NonceStore.ConsumeNonce` | indexer/auth/challenge.go:61-70 | removes the nonce and says whether it was known and unexpired |
| `Nonces.NonceStore.VerifyChallenge` | indexer/auth/challenge.go:120-207 | the checks in order; a submission that fails an earlier one leaves the store unchanged |
| `Nonces.Signers` | indexer/auth/challenge.go:173-191 | the signature loop: a signature valid for the server is never counted for the client |

## Left out

- HTTP, Soroban RPC, XDR and address decoding, signatures, HMAC, JWT and DNS checks are foreign; their results are inputs of the model.
- Event ids are taken to be non-empty and distinct, ledger close times to parse; with an unparsable close time the source uses the clock.
- Listener.NoLoss: needs pages in ledger order that run out, by an empty page or a missing cursor, only at the tip; a positive tip that does not rise after a page that deferred an event; and restarts from a saved checkpoint. `Losses.LeftBehindIff` and `Losses.FallbackResumeIff` say what happens otherwise.
- Listener.CrashEquivalence: for a fixed set of subscriptions, and without a backfill running beside the listener.
- Progress of the listener is not claimed: an event that always rolls back stops it, as `Losses.AttestationBlocks` shows.
- Ledger numbers, counters and amounts are unbounded integers; the 32-bit ledger width and the shift width of the backoff are not modelled. The listing's 64-bit offset is.
- The retry columns of a delivery row are part of `DeliveryQueue`, not of the tables the listener folds over; the delivery payload keeps the fields its content depends on, not its JSON.
- DeliveryQueue.LeaseExclusivity: a claim and an outcome write take no time; a worker's time from claim to first launch, and marks that outlast the HTTP timeout, have to be counted into the attempt time.
- Rate limiters treat each call and each sweep as one atomic step and the clock as non-decreasing; a bucket detached between the two locks is not modelled.
- TokenBucket.TokenBound: over the reals, without rounding, and for runs that evict nobody for capacity; an evicted client starts over with a full bucket.
- PageWalk.WalkComplete: for walks whose requests all succeed; rows that stop matching the filter in mid-walk are outside it.
- PageWalk orders ids by an integer that stands for the id's place in the database's text collation.
- AsyncHooks runs the code between two awaits as one step, as JavaScript does; React's batching of state updates is not modelled.
- Broadcast.BroadcastTx: attempt limits are integers; building, simulating and signing the transaction are inputs.
- Nonces: several server processes would need a shared store; the model is of one.
- Pool statistics and snapshots, which are written outside the event transaction and only copied from the chain.
- PATCH /invoices/{id}/status writes any status a caller sends, so lifecycle and timeline results are for listener events only.
- The cursor stack of the transaction history hook, trusted-proxy parsing, CORS and authentication middleware, React components, configuration, metrics and PDF output.
- Stroop sums, u128 splitting and migration file names, which would add only easy members.
- PageWalk.LateInsertLosesIff: one newest insert in the last request; `PageWalk.WalkIncompleteIff` is the general condition.
- PageWalk.WalkIncompleteIff: while the oldest row of the start stays last; `PageWalk.MissedIff` covers arrivals anywhere in the order.
