# Verified model of the money-manager API

This project models the concurrent protocols and in-process indexes of the money-manager API and proves what they are
for. The theorems are statements over all inputs, all interleavings or all reachable states; where one needs a condition,
the condition is exact, and a concrete run that fails it is given as a counterexample.

## What is modelled

| files | what |
|---|---|
| `Retry`, `SnapshotWriters`, `SnapshotSchedules` | `withRetry`, and N writers doing read-modify-write on one row under REPEATABLE READ (snapshot at the first read, first committer wins) |
| `JobWorkers`, `JobDrain`, `JobReplies` | workers claiming jobs with FOR UPDATE SKIP LOCKED, with crashes anywhere, and the polling loop each of them is |
| `Domain`, `EffectiveRates`, `CreateBatch` | the batched create, against creating its entries one by one |
| `Ledger`, `LedgerConservation`, `LedgerEffects`, `CheckoutRace`, `CheckoutRaceEnds`, `OrdersAndJobs`, `LedgerServices`, `LedgerBatch`, `LedgerCommits` | batch create, status change and guarded checkout as interleaved transactions with write sets and row locks, and as the sequential services every commit amounts to |
| `Receipts`, `ReceiptGuarantees`, `ReceiptsConsumer` | publish after COMMIT, at-least-once delivery, idempotent receipt, ack after the effect |
| `Auth` | refresh-token families and the access-token denylist |
| `OrderEvents` | the bounded event buffer and its SSE replay |
| `TextOrder`, `FxRates`, `FxAgreement`, `FxSync` | the binary-search rate index against the SQL lookup, and the resumable chunked backfill |
| `Pagination` | keyset pages by (timestamp, id) |
| `Idempotency` | the Idempotency-Key store |
| `Sums`, `Wrappers` | finite sums and repeated addition, Option and Result |

Protocols are state machines: a total `Step` function (an event that is not enabled changes nothing), `Exec` over any
sequence of events, and theorems over all sequences. Code that updates state in place is a class or a loop whose
`ensures` ties it to a specification function, and the theorems are about that function.

Where a specification function stands between the code and a theorem (signs, retryable codes, the row filter, liveness of
a token), the main results are also stated without it, in the fields, constants and comparisons the source uses, so that
the function itself is pinned.

Verify everything with `dafny verify dfyconfig.toml`.

## Assumptions

- Ids, tokens and families are fresh when issued; sha256 is injective on the bodies and tokens used; a cursor is an
  opaque pair that survives its encoding.
- One monotone clock. Amounts and rates are exact numbers; `bigint` overflow does not occur.
- Postgres: a row written by an open transaction is locked until it ends; a guarded UPDATE that waited re-checks its
  predicate on the committed row; a row whose committed version does not match is skipped without waiting; a multi-row
  INSERT is all or nothing; a rollback leaves no trace.
- REPEATABLE READ: the snapshot is taken at the first read, and an UPDATE of a row committed since fails with 40001.
- Auth: each committed transaction is one atomic step. The FOR UPDATE of a refresh covers only the presented token, so
  claims about a whole family are claims about serial committed transactions.
- The broker keeps a confirmed message in one place at a time; a reject with requeue counts towards the delivery limit,
  a delivery lost with its consumer may or may not (both are covered).
- The rate feed is ascending by date and its past days are fixed; it gains later days at any time.
- Dates are ten-character text and compare as text. Uuids are compared as 128-bit numbers.

## Where a promise needs a condition

- **Retry budget.** For every N and every barrier, N writers never give up in any schedule if and only if
  `maxAttempts >= N`, or N <= 1, or the barrier waits for more than N arrivals, so that nobody ever writes
  (`AttemptsNeededExactly`). Otherwise N - 1 overtaking writers starve one, behind any barrier that opens.
- **Rate index.** Index-then-database agrees with SQL for every currency and date if and only if every row added since
  the load is dated after its currency's last cached date, before its first, or loses the source tie of a date already
  cached (`CacheAgreesExactlyWhen`). When rows may also be corrected in place, no effective row of a cached date may
  have been (`AgreesAfterCorrectionsExactlyWhen`); for an arbitrary table see `AgreesWithAnyTableExactlyWhen`.
- **SSE replay.** A reconnect is complete if and only if no event of the order newer than the cursor was evicted
  (`ReconnectIsCompleteIff`). With a cursor of another process, possibly ahead of the counter, a client gets the order's
  whole list of this process if and only if, whenever it connected without having received anything yet, no event of the
  order had an id up to the cursor (`AnyCursorIsSeamlessExactlyWhen`; counterexample `StaleCursorSkips`).
- **Receipts.** `ON CONFLICT DO NOTHING` covers both unique constraints, so an acked message's order need not have a
  receipt. For any list of published bodies, poison and third-party events included, every run that publishes it gives
  each acked message's order a receipt if and only if the event ids among the valid bodies name one order each
  (`AcksMeanReceiptsExactlyWhen`). Checkouts and their repetitions keep to it by themselves.
- **Pagination.** A cursor holds milliseconds. With finer stored timestamps the listing is complete if and only if at
  every multiple of the limit the next row is below the truncated key (`ListingIsCompleteExactlyWhen`); with
  TIMESTAMP(3) that always holds.
- **Idempotency.** At most one handler runs per key if and only if no key is sent again while a handler of it has been
  running for the whole TTL (`OneHandlerPerKeyExactlyWhen`); a handler whose connection was lost counts as running until it
  ends. The in-flight record expires although its handler still runs, so a slow handler can be carried out twice
  (counterexample `SlowHandlerRunsTwice`). The composed key separates users because
  ids have one length; in general two users can share a key if and only if one id is the other plus a colon and more.

## Model

| member | source | states |
|---|---|---|
| Retry.DelayIsBounded | src/concurrency/retry.ts:78-79 | for any options, attempt and jitter in [0,1) the delay lies between 1 and max(1, min(base * 2^(attempt-1), maxDelay)) |
| Retry.DelayIsJittered | src/concurrency/retry.ts:78-79 | exactly one delay qualifies: the jittered ceiling, rounded half up to a whole millisecond and at least 1 |
| Retry.RetryableCarries | src/concurrency/retry.ts:19-50 | a failure is retryable exactly when its own code, or its driver's when it has none of its own, is the text 40001 or 40P01 |
| Retry.WithRetry | src/concurrency/retry.ts:59-88 | attempts = retries + 1 <= max(1, maxAttempts); every attempt before the last failed carrying 40001 or 40P01 and is recorded with it, in order, with its own jittered delay; the reply is the last attempt's result or error, and an error only escapes when it carries neither of the two codes or attempts are used up |
| SnapshotWriters.NoLostUpdate | src/demo-retry.ts:73-118 | in every state of every schedule, failures included, the row is the start plus the deltas of the writers that committed, each of which committed once |
| SnapshotWriters.ReadsNeverWait | src/demo-retry.ts:73-118 | a read sees the committed row whoever holds the lock |
| SnapshotWriters.StaleWritesAreRefused | src/demo-retry.ts:73-118 | an UPDATE of a row committed since the snapshot fails with 40001 and leaves the row; the writer reads again while it has attempts left and gives up otherwise |
| SnapshotWriters.FailuresDropTheLock | src/concurrency/retry.ts:67-87 | a failure at any time drops the writer's lock and nobody else's; it is repeated exactly when it carries 40001 or 40P01 and an attempt is left |
| SnapshotWriters.AbortsAreChargedToCommits | src/concurrency/retry.ts:67-87 | without environment failures each abort of a writer is charged to a distinct other writer's commit, so there are at most N-1 |
| SnapshotWriters.EnoughAttemptsNeverGiveUp | src/concurrency/retry.ts:74-76 | with maxAttempts >= N no writer gives up in any schedule |
| SnapshotWriters.EnabledStepsLowerTheRank | src/concurrency/retry.ts:67-87 | every effective step lowers a rank, whoever moves |
| SnapshotWriters.EveryScheduleIsFinite | src/concurrency/retry.ts:67-87 | a bound on the effective steps of any schedule: no livelock |
| SnapshotSchedules.SomeEventIsEnabled | src/demo-retry.ts:31-45 | while a writer is live something other than a failure can happen: lock and barrier never deadlock |
| SnapshotSchedules.EveryScheduleAddsUp | src/demo-retry.ts:73-118 | with maxAttempts >= N, when nothing more can happen every writer has committed exactly once and the row is the start plus all deltas |
| SnapshotSchedules.EqualDeltasAddUp | src/demo-retry.ts:73-118 | the same with equal deltas: start + N * delta |
| SnapshotSchedules.BarrierForcesConflicts | src/demo-retry.ts:31-45 | with a full barrier every writer but the first committer is aborted at least once, so there are at least N-1 retries |
| SnapshotSchedules.AttemptsNeededExactly | src/concurrency/retry.ts:74-76 | for every N and every barrier: no failure-free schedule makes anybody give up if and only if maxAttempts >= N, or N <= 1, or the barrier waits for more than N arrivals |
| SnapshotSchedules.OvertakesStarve | src/demo-retry.ts:73-118 | behind any barrier that N writers open, k overtaking writers cost the overtaken one k attempts: the schedule behind the "only if" |
| JobWorkers.OldestIsUnique | src/concurrency/worker.ts:48-56 | the claim query has one answer: (created_at, id) is a total order |
| JobWorkers.EveryJobExactlyOnce | src/concurrency/worker.ts:47-80 | in every reachable state, crashes and late enqueues included: at most one lock holder per job, processed is 1 exactly when done and 0 otherwise, the jobIds lists are duplicate-free, disjoint and match worker_id |
| JobReplies.PollTakesTheOldestFree | src/concurrency/worker.ts:47-60 | a poll takes the pending job in nobody's hands that is first by (created_at, id), whatever the others hold, and comes back empty exactly when there is none |
| JobReplies.CrashFreesTheJob | src/concurrency/worker.ts:47-74 | a crash makes the job in hand claimable again and ends the worker for every continuation |
| JobReplies.EnqueuedJobsAreFree | src/concurrency/checkout.ts:169-174 | a job enqueued at any time is claimable at once and nothing else changes |
| JobReplies.WorkersAreTheLoop | src/concurrency/worker.ts:37-94 | in any run, crashes and late enqueues included, a worker has returned exactly when the last m replies its polls got were all empty, which they never were before; its job list and idle count are the loop's on those replies, and a job in hand is the last reply, still to be noted |
| JobDrain.ClaimableShrinks | src/concurrency/worker.ts:48-60 | without crash and enqueue no step makes a job claimable again, and a claim removes exactly the oldest |
| JobDrain.PoolDrains | src/concurrency/worker.ts:46-93 | no crash, no late enqueue: when all workers have returned every job is done, processed once |
| JobDrain.IdlePollsAreBounded | src/concurrency/worker.ts:82-93 | in any run, with crashes and late enqueues, a worker with c claims made at most c * (m-1) + m empty polls, m = max(1, maxIdlePolls) |
| JobDrain.ClosedRunsPollInVainOnlyAtTheEnd | src/concurrency/worker.ts:82-90 | without crash and late enqueue all empty polls of a worker come in one row at the end: at most m, and exactly m when it has returned |
| JobDrain.UndoneJobsWereCrashedWith | src/concurrency/worker.ts:47-74 | with crashes and no late enqueue: when every worker has returned or crashed and one returned, each job not done was last held by a worker that crashed with it, and nobody claimed it since |
| JobDrain.ClosedRunsAreFinite | src/concurrency/worker.ts:46-93 | a closed run has at most (m+3) * jobs + m * workers effective steps |
| JobDrain.ClosedRunsEndDrained | src/concurrency/worker.ts:46-93 | when nothing more can happen in a closed run, every worker has returned and every job is done |
| JobWorkers.RunWorker | src/concurrency/worker.ts:37-94 | on any replies the loop returns at the first moment the last m of them were empty, reports the claimed ids in order and counts all other polls as idle; the same predicate describes the machine's workers (`WorkersAreTheLoop`) |
| EffectiveRates.KeyIsInjective | src/fx-rates/fx-rate.repository.ts:13-22 | the deduplication key determines the currency and the date |
| EffectiveRates.SameKeySameRate | src/fx-rates/fx-rate.repository.ts:20-22 | pairs with one key have one effective rate, so deduplicating is sound |
| EffectiveRates.EffectiveRateIs | src/fx-rates/fx-rates.service.ts:41-60 | the base currency is priced at 1 without a lookup; any other has what the lookup finds for its currency and date, or fails naming both |
| EffectiveRates.UniqueKeys | src/fx-rates/fx-rates.service.ts:66-69 | the map lists each distinct key once, in order of first occurrence, and holds the index of its last occurrence |
| EffectiveRates.EffectiveRatesOf | src/fx-rates/fx-rates.service.ts:62-76 | at most one lookup per distinct key and none at all for a batch in the base currency; on success every pair's key maps to 1 for UAH and to what the lookup has for that pair otherwise; a failure is that of the first pair without a rate |
| CreateBatch.CreateEachIs | src/transactions/transactions.service.ts:87-158 | one-by-one creation succeeds exactly when every entry is acceptable on its own and the ids are fresh and distinct, and then adds all rows and credits each account its signed sum |
| CreateBatch.SignedSumIsInMinusOut | src/transactions/transactions.service.ts:23-30 | an account's signed sum is the amounts of its Income, TransferIn and Sell entries minus those of its Expense, TransferOut and Buy entries |
| CreateBatch.AcceptableIsStorable | src/transactions/transactions.service.ts:99-147 | an entry is acceptable exactly when its account is the caller's and of its currency, a symbol is there exactly for Buy and Sell and is listed, its rate exists and passes the CHECKs, and its amount, quantity and description do |
| CreateBatch.CreatedExactlyWhen | src/transactions/transactions.service.ts:87-158 | creation succeeds exactly when every entry is on an account of the caller and can be stored and the ids are free and distinct; then each entry is a posted row with all its fields and each balance has moved by what comes in minus what goes out |
| CreateBatch.ReportsAreTrue | src/transactions/transactions.service.ts:99-141 | what each rejection says of the batch, in the terms of the entries: the first entry that does not fit, with the first thing wrong with it; else an unknown symbol; else the first entry without a rate; else a constraint |
| CreateBatch.BuildDeltas | src/transactions/transactions.service.ts:99-147 | the first offending entry decides; otherwise the delta map holds exactly the per-account signed sums of the entries |
| CreateBatch.BuildRows | src/transactions/transactions.repository.ts:93-151 | rows exist exactly when every symbol and rate resolves; they are in input order, each with the rate a lookup of its own would give; an unknown symbol anywhere is reported first, then the first entry without a rate |
| CreateBatch.Database.Accepts | src/entities/transaction.entity.ts:28-39 | a set of rows is accepted exactly when every row passes the CHECKs and the foreign key, spelled out column by column, and the ids are fresh and distinct |
| CreateBatch.Database.InsertAll | src/transactions/transactions.repository.ts:153-153 | all rows or, when any CHECK, the foreign key or the primary key fails, none |
| CreateBatch.Database.ApplyDeltas | src/transactions/transactions.service.ts:150-152 | every account moves by its delta and no other account moves, in whatever order the map is walked |
| CreateBatch.Database.Create | src/transactions/transactions.service.ts:87-158 | the batch succeeds exactly when one-by-one creation does and leaves the same tables; without naming either: accepted exactly when each entry is on an account of the caller and storable and the ids are free and distinct, then one posted row per entry and each balance moved by Income, TransferIn and Sell minus Expense, TransferOut and Buy; rejected batches change nothing and report the first failing entry check, else an unknown symbol, else the first missing rate, else a constraint; the answer is in input order |
| CreateBatch.OneReport | src/transactions/transactions.service.ts:99-149 | a rejected batch has exactly one problem to report |
| CreateBatch.SchemaDecides | src/entities/transaction.entity.ts:28-39 | for validated and resolved entries the CHECKs accept the batch exactly when every entry is acceptable |
| LedgerConservation.BalancesAreConserved | src/transactions/transactions.service.ts:143-152 | over every interleaving of creates, status changes and checkouts with rollbacks anywhere, each committed balance is the opening balance plus the amounts of the account's posted Income, TransferIn and Sell rows minus those of its posted Expense, TransferOut and Buy rows |
| LedgerConservation.PostedSumIsInMinusOut | src/transactions/transactions.service.ts:23-30 | the signed sum over an account's posted rows is what came in minus what went out, by the literal kinds |
| LedgerConservation.RestoredRowsRestoreTheBalance | src/orders/orders.service.ts:54-60 | two runs from one state that end with equal bookings on an account end with equal balances; so a chain of status changes back to the first status restores the balance |
| LedgerConservation.PlansAreBalanced | src/transactions/transactions.service.ts:143-152 | the statements of every program move the balance by what its rows book |
| LedgerConservation.StatusPlanIsBalanced | src/orders/orders.service.ts:54-60 | for any old and new status and any row kind the balance correction equals the change in what the row books |
| LedgerConservation.MergeMovesByGain | src/transactions/transactions.repository.ts:153-153 | committing a write set moves the posted sum by exactly the set's gain |
| LedgerConservation.OthersUnmoved | src/orders/orders.service.ts:38-44 | one transaction's commit leaves the balance sheet of every other open one as it was, because write sets are disjoint |
| LedgerEffects.EveryCommitTakesEffect | src/concurrency/checkout.ts:147-184 | in every interleaving a transaction that commits leaves exactly what its program is for (all rows of the batch, the one status, the debit with its order and job) and moves each balance by what its rows book |
| LedgerEffects.CommitTakesEffect | src/orders/orders.service.ts:37-62 | the same for one state that follows its program |
| LedgerEffects.FinishedBatchHasItsRows | src/transactions/transactions.service.ts:149-152 | a batch whose statements are all done holds exactly its rows |
| LedgerCommits.EveryCommitIsTheService | src/concurrency/checkout.ts:130-191 | after any interleaving, the commit of any transaction leaves the tables that the sequential service (one-by-one creation, status change, checkout) makes of the tables the commit finds |
| LedgerCommits.EveryCommitInPlainTerms | src/transactions/transactions.service.ts:143-152 | the same without naming the services: the batch's rows with balances moved by in minus out, the amount of a row that crosses the `posted` line, the order with 1,000,000 micro-units per unit and its unit price in whole currency, its job and its cost |
| LedgerCommits.WaitsOnlyForLocks | src/concurrency/checkout.ts:72-99 | a statement that does not go through waits for an account or row that another open transaction has written or locked |
| LedgerCommits.StartsBesideAnyOther | src/concurrency/checkout.ts:130-147 | whatever else is open, a transaction starts with nothing written or is turned down before its first write; a checkout exactly by its quantity |
| LedgerCommits.UncommittedRunsTouchNothing | src/transactions/transactions.service.ts:90-98 | no run without a commit changes a table |
| LedgerCommits.CrashLeavesTheCommitted | src/concurrency/checkout.ts:147-184 | when every open connection is lost, at any moment, the tables are exactly what had been committed, no lock is left and each open transaction is recorded as rolled back |
| CheckoutRace.RaceIsScheduleIndependent | src/concurrency/checkout.ts:72-99 | N equal checkouts of an account holding B: never negative at any moment; when all have finished exactly min(N, B div p) succeeded, B - p * successes is left, and orders and jobs grew by the successes |
| CheckoutRace.SomebodyCanMove | src/concurrency/checkout.ts:147-184 | the race cannot deadlock: while anybody is in flight some statement or commit of a request already in goes through |
| CheckoutRaceEnds.RaceIsFinite | src/concurrency/checkout.ts:147-184 | from any point of the race, without new requests, at most four steps per request in flight do anything |
| CheckoutRaceEnds.RaceCanAlwaysFinish | src/demo-race.ts:124-146 | from any point at most four steps per request in flight lead to a state with nothing in flight, where the final score holds |
| CheckoutRace.FinalScore | src/demo-race.ts:124-146 | the arithmetic of the finished race follows from money paid per win and losses only for lack of funds |
| OrdersAndJobs.CheckoutsOrdersAndJobsMatch | src/concurrency/checkout.ts:151-184 | over every interleaving each committed checkout has its order at full cost and its job, there are exactly as many new jobs as committed checkouts, and no order has a price of zero or less |
| LedgerServices.Tables.DebitAccount | src/concurrency/checkout.ts:72-99 | succeeds exactly when the account exists and holds the cost; debits it then, and otherwise tells the two reasons apart and changes nothing |
| LedgerServices.Tables.PlaceCheckout | src/concurrency/checkout.ts:130-191 | accepted exactly when the quantity and price are positive, the account holds price times quantity, its currency has a rate that passes the CHECKs, the instrument exists and the order id is free; then debit, order (1,000,000 micro-units per unit, unit price in whole currency) and job together, otherwise the first reason against it and unchanged tables |
| LedgerServices.Tables.ChangeOrderStatus | src/orders/orders.service.ts:36-62 | the row gets the status and, when it crosses the `posted` line, the balance moves by the amount, up for Income, TransferIn and Sell and down for Expense, TransferOut and Buy, or back; errors change nothing and are told apart; reports whether the status changed |
| LedgerServices.CheckoutInPlainTerms | src/concurrency/checkout.ts:130-191 | when a checkout is accepted, every field it stores, and which refusal is given first |
| LedgerServices.StatusChangeInPlainTerms | src/orders/orders.service.ts:37-62 | what a status change moves, by kind and by the two statuses, and when it is refused |
| LedgerServices.CheckoutIsTheMachine | src/concurrency/checkout.ts:147-184 | the checkout in one piece is the ledger machine's run of its statements with nobody in between, error cases included |
| LedgerServices.StatusChangeIsTheMachine | src/orders/orders.service.ts:36-62 | the same for the status change |
| LedgerBatch.BatchIsTheMachine | src/transactions/transactions.service.ts:90-155 | the batch's statements with nobody in between commit exactly when one-by-one creation succeeds and leave the same accounts and rows, and otherwise roll back and leave nothing |
| Receipts.MessagesAreConserved | src/broker/topology.ts:44-52 | over every run each published message is in exactly one of ready, one consumer's hands, acked, dead-lettered; a consumer holds at most PREFETCH; at most 6 deliveries end in a requeue-reject; a valid message is dead-lettered only after 6 counted returns |
| Receipts.ReceiptsAreSound | src/order-receipts-consumer.ts:29-85 | over every run with crashes, redeliveries, republishing and foreign publishers: receipts are for committed orders and published events, no event gives two, only valid messages are acked, and an acked one's order has a receipt or its event id already gave one |
| ReceiptGuarantees.AcksMeanReceiptsExactlyWhen | src/migrations/1790100000000-OrderReceipts.ts:22-32 | for any published bodies, every run that publishes them gives each acked message's order a receipt if and only if the event ids among the valid bodies name one order each |
| ReceiptGuarantees.EveryOrderGetsItsReceipt | src/order-receipts-consumer.ts:59-84 | over every run with poison and third-party publishers in which no event id was published for two orders: an acked message's order has a receipt, its own if no order has two event ids, and once the queue is empty every valid message's order has one unless the message was dead-lettered after 6 returns |
| ReceiptGuarantees.CheckoutMessagesAreAboutCommittedOrders | src/concurrency/checkout.ts:193-202 | over every run, whoever else publishes, each message of a checkout (and each repetition of one) is valid and about a committed order |
| ReceiptGuarantees.CheckoutsGetExactlyTheirReceipts | src/concurrency/checkout.ts:193-202 | with checkouts, repetitions and poison on the queue the condition holds by itself and every acked order has exactly its own receipt |
| ReceiptGuarantees.ReusedEventIdLosesAReceipt | src/order-receipts-consumer.ts:29-37 | for any published bodies in which an event id stands for two orders there is a run that publishes exactly them, commits the second order and acks its message, and leaves it without a receipt |
| Receipts.StepKeepsLimit | src/broker/topology.ts:24-25 | every step keeps the strike count within the delivery limit and ties dead-lettering to it |
| Receipts.DeliveryWaitsOnlyForRoom | src/broker/topology.ts:22-22 | any ready message is delivered to any consumer that holds fewer than 10, and to no other |
| Receipts.AnyDeliveryCanBeLost | src/broker/topology.ts:24-52 | a consumer may die with any delivery in hand: the message goes back, or to the dead letters past 5 counted returns, and receipts and acks stay |
| Receipts.HandleKeepsReceipts | src/order-receipts-consumer.ts:59-84 | the handler keeps receipts sound and every effected or acked message covered |
| ReceiptsConsumer.Consumer.IssueReceipt | src/order-receipts-consumer.ts:29-37 | true exactly when the row is new, false on either unique conflict, an exception when the database is down or the order does not exist; nothing else changes |
| ReceiptsConsumer.Consumer.HandleMessage | src/order-receipts-consumer.ts:50-85 | poison is rejected for good, a failed insert is requeued, and the ack goes out only with the order or event covered by a receipt |
| ReceiptsConsumer.HandlingIsTheMachine | src/order-receipts-consumer.ts:50-85 | handling a delivery is the pipeline's steps: the same receipts, and the message leaves the consumer's hands to exactly one place |
| Auth.AtMostOneLiveToken | src/auth/auth.service.ts:57-92 | after any sequence of transactions a family is wholly revoked or has exactly one unused row and no revoked one; never two rows neither used nor revoked |
| Auth.RowsCountRefreshes | src/auth/auth.service.ts:73-77 | from its login on a family has 1 + successful refreshes rows |
| Auth.FamilySize | src/auth/auth.service.ts:120-126 | any run adds one row per successful refresh of the family and no other |
| Auth.RefreshesExactlyWhen | src/auth/auth.service.ts:57-78 | presenting a token yields a successor exactly when its row exists, is unused and unrevoked, and now is before its expiry |
| Auth.TokensRefreshOnceForThirtyDays | src/auth/auth.service.ts:57-92 | after any history and for any continuation, a token issued at time t yields a successor exactly while now < t + 30 days, as long as it has not been presented, no used token of its family was replayed and none of its sessions logged out |
| Auth.KilledForever | src/auth/auth.service.ts:65-67 | a revoked family never refreshes again and never grows |
| Auth.ReplayEndsTheFamily | src/auth/auth.service.ts:68-71 | after any history, replaying a used token that is neither revoked nor past its expiry revokes all rows of its family for every continuation |
| Auth.LogoutEndsTheFamily | src/auth/auth.service.ts:100-118 | logging out does the same to the family of the access token |
| Auth.AcceptedUntilLogoutOrExpiry | src/auth/tokens.service.ts:70-93 | an issued access token is accepted at a later time if and only if it has not expired and was not logged out, although any logout may delete entries |
| Auth.AccessLivesTenMinutes | src/auth/tokens.service.ts:70-93 | an access token issued at time t is accepted for ten minutes from the second of t, until it is logged out, whatever else happens |
| Auth.LoggedOutIsNeverAcceptedAgain | src/auth/auth.service.ts:103-108 | once logged out, never accepted at any later time |
| Auth.AuthService.LoginUser | src/auth/auth.service.ts:42-44 | one login step of the machine |
| Auth.AuthService.IssuePair | src/auth/auth.service.ts:120-133 | one new unused row and one access token of the family, with their lifetimes |
| Auth.AuthService.MarkFamilyRevoked | src/auth/auth.service.ts:113-118 | every row of the family is revoked and no other row changes |
| Auth.AuthService.RefreshToken | src/auth/auth.service.ts:57-78 | issued exactly when the row exists, is unrevoked, unused and unexpired, reuse exactly when it is used instead, otherwise invalid; what each outcome writes, with the lifetimes; and the same as one step of the machine |
| Auth.AuthService.LogoutUser | src/auth/auth.service.ts:100-109 | every row of the token's family is revoked, its id is denied until its expiry, and entries past theirs are dropped; one logout step of the machine |
| Auth.AuthService.VerifyAccess | src/auth/tokens.service.ts:70-93 | accepts exactly the tokens that are neither expired nor denied |
| OrderEvents.OrderEventsService.Publish | src/orders/order-events.service.ts:31-38 | appends the next number; the buffer is always the last 1000 of everything published |
| OrderEvents.OrderEventsService.Since | src/orders/order-events.service.ts:41-43 | the order's buffered events after the cursor; all there ever were if and only if none of them was evicted |
| OrderEvents.MatchIs | src/orders/order-events.service.ts:41-43 | exactly the wanted events, in increasing order of their ids |
| OrderEvents.StreamsAreSeamless | src/orders/orders.controller.ts:77-86 | for any publishes, broken connections and reconnects with gaps of at most 1000, the joined sessions are a prefix of the order's list after the first cursor, and the whole list while connected |
| OrderEvents.OnlyEvictedEventsAreMissed | src/orders/orders.controller.ts:77-86 | for any interleaving the joined sessions have strictly increasing ids and a connected client misses only events evicted at a reconnect |
| OrderEvents.ReconnectIsCompleteIff | src/orders/order-events.service.ts:31-43 | a reconnect misses nothing if and only if no event of the order after the cursor was evicted |
| OrderEvents.LostFramesComeAgain | src/orders/orders.controller.ts:77-86 | frames lost with a connection are sent again at the next one unless 1000 later events have pushed them out |
| OrderEvents.AnyCursorIsSeamlessExactlyWhen | src/orders/orders.controller.ts:77-86 | for any cursor, also one ahead of the counter, and any run whose gaps fit: a connected client's joined sessions are the order's whole list of this process if and only if, whenever it connected without having received anything yet, no event of the order had an id up to the cursor |
| OrderEvents.StaleCursorSkips | src/orders/orders.controller.ts:78-80 | counterexample: for any cursor above 0 the first event of a new process, published while the client was away, is skipped |
| FxRates.LatestIsUnique | src/fx-rates/fx-rate.repository.ts:39-42 | the SQL order (date descending, source ascending) picks one row |
| FxRates.SqlLatestIs | src/fx-rates/fx-rate.repository.ts:33-44 | the row of the currency dated on or before the day such that no other is later, nor of the same date with a smaller source, is the answer of the lookup |
| FxRates.NoRowNoAnswer | src/fx-rates/fx-rate.repository.ts:33-44 | there is no answer exactly when no row of the currency is dated on or before the day |
| TextOrder.LeIs | src/fx-rates/fx-rate.repository.ts:39-42 | dates and sources compare as text: a beginning first, else by the first differing character |
| FxRates.FxRateCache.Load | src/fx-rates/fx-rate.cache.ts:38-49 | the index holds, per currency, exactly its rows in order, and nothing of the previous index |
| FxRates.FxRateCache.FindLatest | src/fx-rates/fx-rate.cache.ts:64-83 | the binary search finds the rightmost entry dated on or before the date; no answer for an unknown currency, a date past the last entry or before the first |
| FxRates.CacheAnswersForTheLoadedTable | src/fx-rates/fx-rate.repository.ts:88-95 | every answer of the index is the SQL answer over the table it was loaded from, gaps and source ties included |
| FxRates.HarmlessWritesAgree | src/fx-rates/fx-rates.service.ts:27-33 | while later rows are harmless, index-then-database is the plain SQL lookup for every currency and date |
| FxRates.HarmfulRowDisagrees | src/fx-rates/fx-rate.cache.ts:64-67 | any other added row makes the two differ on its own date |
| FxRates.CacheAgreesExactlyWhen | src/fx-rates/fx-rates.service.ts:27-33 | with history write-once, the two agree everywhere if and only if all rows added since the load are harmless |
| FxAgreement.AgreesAfterCorrectionsExactlyWhen | src/fx-rates/fx-rates.service.ts:21-33 | with rows added and corrected in place, they agree everywhere if and only if all added rows are harmless and no effective row of a cached date was corrected |
| FxAgreement.AgreesWithAnyTableExactlyWhen | src/fx-rates/fx-rate.cache.ts:64-83 | for an arbitrary table, they agree everywhere if and only if every cached entry is still the unchanged effective row of its date and no other date lies within a cached range |
| FxSync.NoHoles | src/fx-rates/fx-sync.service.ts:86-124 | from an empty table, after any interleaving of syncs that may die between chunks, the table is the published history from the backfill start to MAX(rate_date), at the published rates, and nothing else |
| FxSync.FinishedSyncIsComplete | src/fx-rates/fx-sync.service.ts:109-118 | whatever runs beside it, a sync that writes its last chunk leaves every day published up to its end date stored |
| FxSync.SettlesOnOneTable | src/fx-rates/fx-rate.repository.ts:74-81 | however chunked, interrupted and interleaved, once the days are there the table is what one upsert of the whole range makes |
| FxSync.RerunChangesNothing | src/fx-rates/fx-sync.service.ts:48-49 | any syncs over days that are all stored leave the table as it was |
| FxSync.CurrenciesAreIndependent | src/fx-rates/fx-sync.service.ts:93-101 | a currency's table is what its own events make of it, in any interleaving and whatever fails elsewhere |
| FxSync.FetchedIsStretch | src/fx-rates/fx-sync.service.ts:96-96 | resuming at the last stored date or the backfill start, the rows fetched continue the table without a gap |
| FxSync.FxRateTable.UpsertMany | src/fx-rates/fx-rate.repository.ts:74-81 | when it dies after k statements exactly the first min(k * 1000, n) rows are written: each date among them holds the rate of its last row and every other date is as it was; it completes exactly when the statements cover all rows |
| FxSync.UpsertKeepsTheLast | src/fx-rates/fx-rate.repository.ts:74-81 | after an upsert each date among the rows holds the rate of its last row, and all other dates are unchanged |
| FxSync.SyncCanStartOver | src/fx-rates/fx-sync.service.ts:86-124 | a sync, after a death of its own or not and whatever others are in the middle of, resumes at the newest stored date or the backfill start, ends after one statement per thousand rows and stores exactly the published days from there to its end date |
| FxSync.AnyFeedCanAppear | src/fx-rates/fx-sync.service.ts:86-124 | every ascending history is one the bank can come to have published, so the theorems are about all of them |
| FxSync.ChunksAreTheLoop | src/fx-rates/fx-rate.repository.ts:74-81 | k chunk steps of the machine write what k turns of the loop write |
| Pagination.PageIs | src/transactions/transactions.repository.ts:59-83 | a page is in descending (at, id) order, at most limit long, holds only rows of the user, of the account if named, below the cursor, and such a row it leaves out comes after all of a full page |
| Pagination.NextCursorIs | src/transactions/transactions.service.ts:67-71 | a page has a cursor exactly when it is full: its last row's timestamp in milliseconds, and its id |
| Pagination.NothingRepeats | src/transactions/transactions.service.ts:61-71 | with any writes between pages and any timestamps, what a client receives is strictly descending |
| Pagination.OnlyOwnRows | src/transactions/transactions.repository.ts:68-76 | every row ever sent is owned by the user and, if an account is named, of that account, and is in one of the tables |
| Pagination.StableRowsAreSeenOnce | src/accounts/accounts.repository.ts:57-71 | with millisecond timestamps and any writes between pages, every row of the user (and of the account if named) present throughout is received exactly once |
| Pagination.ListingIs | src/transactions/transactions.repository.ts:59-83 | the whole listing holds exactly the rows of the user, of the account if named, in descending order |
| Pagination.WholeListingInExactlyEnoughRequests | src/accounts/accounts.service.ts:16-23 | over an unchanging table the pages joined are the whole listing, and the client is finished after n div limit + 1 requests and not before |
| Pagination.SessionIsSlices | src/transactions/transactions.service.ts:67-71 | page k is rows k * limit up to (k+1) * limit of the listing, with a cursor exactly when that many are there |
| Pagination.ListingIsCompleteExactlyWhen | src/migrations/1789250000000-TimestampMillisecondPrecision.ts:7-20 | with any timestamps the client ends with the whole listing if and only if at each multiple of the limit the next row is below the truncated key |
| Pagination.SubMillisecondRowIsMissed | src/migrations/1789250000000-TimestampMillisecondPrecision.ts:7-20 | counterexample: three rows of one microsecond at two a page, the third never comes |
| Idempotency.IdempotencyInterceptor.Intercept | src/shared/idempotency.interceptor.ts:39-77 | passes through exactly without POST, user or a non-empty key; otherwise, by the record of user:key, starts the handler and takes the key for 86,400,000 ms, refuses another body as a reuse, tells the same body to wait or replays its response, and leaves the store alone unless it starts |
| Idempotency.IdempotencyInterceptor.OnFinish | src/shared/idempotency.interceptor.ts:80-106 | a 201 stores its body for a TTL, anything else removes the key, and no other key is touched |
| Idempotency.OneHandlerPerKeyExactlyWhen | src/shared/idempotency.interceptor.ts:51-77 | over every run, at most one handler per key at every moment, those with a lost connection included, if and only if no key is sent again over a handler that has run for the whole TTL |
| Idempotency.TimelyHandlersNeverOverlap | src/shared/idempotency.interceptor.ts:51-77 | when every handler is gone within the TTL, at most one runs per key |
| Idempotency.RunningHandlersHoldTheirKey | src/shared/idempotency.interceptor.ts:57-71 | while a handler runs within its 24 hours the same body is told to wait and another body that the key is reused, and the store stays as it is |
| Idempotency.LostHandlersRunOn | src/shared/idempotency.interceptor.ts:96-109 | a lost connection changes nothing but itself: the handler runs on, and when it ends neither the store nor what was sent changes |
| Idempotency.StoredResponsesAreSent | src/shared/idempotency.interceptor.ts:72-77 | a repetition of an answered request is sent the stored response at once and no handler runs |
| Idempotency.CarriedOutOncePerTtl | src/shared/idempotency.interceptor.ts:77-106 | without such a re-send, two handlers' own 201s under one key are at least a TTL apart |
| Idempotency.EveryReplayHasItsOriginal | src/shared/idempotency.interceptor.ts:57-75 | over every run each replay carries the fingerprint and body of one handler's own 201 for the key, less than a TTL old, with no other 201 in between |
| Idempotency.OnlyFailuresReleaseTheKey | src/shared/idempotency.interceptor.ts:96-105 | after anything but a 201 the key is free at once; after a 201 it replays to the same body and refuses another for a whole TTL; a handler whose connection was lost leaves its record to expire |
| Idempotency.KeysNeverMix | src/shared/idempotency.interceptor.ts:47-47 | ids of one length never share a composed key |
| Idempotency.UsersCanShareAKeyExactlyWhen | src/shared/idempotency.interceptor.ts:47-47 | two users can share a composed key if and only if one id is the other plus a colon and more |
| Idempotency.ReplaysStayWithTheirUser | src/shared/idempotency.interceptor.ts:31-36 | with uuid users a replay goes to the user and raw key whose handler sent the original |
| Idempotency.SlowHandlerRunsTwice | src/shared/idempotency.interceptor.ts:51-55 | counterexample: a handler that takes the whole TTL is carried out beside its own repetition |

## Left out

- HTTP, NestJS modules, DTO validation, OpenAPI checks, i18n, problem+json: plumbing without a protocol.
- Cryptography and encodings: password hashing, ES256, HMAC, base64url and JSON are taken as injective or opaque; a malformed cursor is not modelled.
- `getCrossRate`, `toFixed` and other floating-point formatting.
- The WebSocket gateway, the AMQP client and the publisher's confirm and return handling.
- The bank's HTTP feed and its parsing; in the backfill, corrections the bank makes to past days; the base-currency filter.
- Seeds, shell scripts, backups, connection pooling, password rotation, contract tests, and the migrations beyond the constraints they declare.
- Deletion of accounts and rows, cascades and archiving.
- Events lost between COMMIT and publish, and the order of events across concurrent requests: the code leaves both open.
- Access tokens of other sessions of a revoked family: by design they live until they expire.
- Interleaved statements of concurrent auth transactions: only committed transactions are steps.
- The user's role re-read at refresh, and claims other than the family and the expiry.
- `bigint` and JavaScript number overflow: integers are unbounded.
- The account lookup in front of a filtered transaction listing (404 and 403): one check each.
- CreateBatch.BuildRows: looks symbols up one by one where the source asks for the distinct ones in one query; the outcome is the same, the number of queries is not stated.
- Ledger: the three programs are modelled as statement lists on values so that they can interleave; their sequential code is in LedgerServices and CreateBatch, and LedgerServices and LedgerBatch tie the two together.
- Idempotency.CarriedOutOncePerTtl: counts operations whose 201 was sent; a handler that lost its connection may have committed without one, and its key is refused until the in-flight record expires.
- Retry.WithRetry: sleeping and the `onRetry` callback have no effect in the model.
