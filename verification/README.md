# Stargate payment core: models and proofs

This project models the payment core of the Stargate backend and proves what holds of it in every
run: the Rust reconciler that turns Horizon payments into ledger rows, the invoice and settlement
services that share its tables, the webhook delivery queue, the Soroban event poller, and the exact
arithmetic they rest on (7-decimal money, fees, muxed ids, keyset cursors, CIDR masks).
`dafny verify dfyconfig.toml` checks everything.

## How the model is built

- **Tables** are sequences of rows; a row's primary key is its position, since rows are never
  deleted. Money is an integer number of 10^-7 units, the scale of every `NUMERIC(18,7)` column.
  A Horizon paging token stands for its place in Horizon's order.
- **Protocols** are step machines. One step is one atomic database action, or a crash, an error or
  an action of another service. `Step` is total (an action that is not enabled changes nothing), so
  every list of actions is a run, and a theorem about all lists is a theorem about all runs.
  Answers from outside (screening, which row SQL fetched, the RPC's reply, clocks, jitter) are
  parameters of the actions.
- **Imperative code** (`Store.Postgres`, `SettlementJob.SettlementService`,
  `WebhookWorker.Deliveries`, `SorobanIndexer.Poller`, `SpendLimit.CreateBulk`) is written as
  classes and loops and proved equal to the function or the run of the step machine it implements.

| file | contents |
|---|---|
| `tables.dfy`, `options.dfy` | rows, tables, the atomic statements |
| `matcher.dfy` | accepted assets, muxed-id decoding, invoice matching |
| `invoice_rules.dfy` | the invoice status machine and partial payments |
| `reconciler.dfy`, `reconciler_safety.dfy`, `reconciler_theorems.dfy`, `reconciler_witness.dfy` | the reconciler as a protocol, its invariant, the theorems over all runs, runs and retries that break a promise |
| `payment_columns.dfy` | what the tables hold, in the columns of payments, invoices and rows |
| `processor.dfy` | uninterrupted processing and replays |
| `retries.dfy`, `retry_runs.dfy` | errors at every await and the retries after them, as functions on the tables and in the protocol |
| `store.dfy` | the reconciler and the invoice service as programs on mutable tables |
| `settlement.dfy` | daily settlements against concurrent ledger inserts |
| `webhook_queue.dfy`, `webhook_races.dfy` | delivery queue by ticks: drain, bounded bypass; by statements: spacing, resets during a batch |
| `decimals.dfy`, `money.dfy`, `fees.dfy` | amount codec, fees, spend limits, bulk creation |
| `muxed_ids.dfy`, `idempotency.dfy` | id allocation and idempotent creation under interleaving |
| `pagination.dfy`, `soroban.dfy`, `cidr.dfy` | keyset pages, the event poller, the IP allowlist |

## Assumptions

- One reconciler, one settlement worker, no overlapping delivery ticks (the code holds no lock for
  more; `docs/RECONCILER.md` asks for one reconciler), and a configuration that does not change.
- The boot cursor is a stream position, not the literal `now`; nobody resets the cursor by hand.
- `merchants.created_at` is distinct and grows with registration; merchants are not deleted.
- Jitter is not negative; basis points are not negative.
- Amounts from Horizon have at most seven fractional digits.
- The webhook worker's clock and the database's `NOW()` are one clock.
- A database action that returns an error has not been carried out.
- Postgres reads no text shorter than 32 characters as a uuid; toISOString has two minute digits.

## What turned out false, and exactly when

- A crash or error between the event insert and the ledger transaction loses the payment for good:
  `ReconcilerWitness.CrashLosesPayment`, `ReconcilerTheorems.OrphanIsForEver`. Every matched event
  has its ledger row if and only if no commit was interrupted:
  `ReconcilerTheorems.ExactlyOnceIffUninterrupted`. (`docs/INVOICE_PAYMENT_FLOW.md` draws the event
  insert inside the transaction; the code, which the model follows, does it before.)
- A ledger row does not imply a paid invoice: `ReconcilerWitness.LedgerRowOnCancelledInvoice`;
  `ReconcilerTheorems.CommitPaysIff` says when it does.
- `decode_muxed_id` reads the last ten characters backwards. Decoding "M" followed by a decimal id
  (the form of the repository's test fixtures) gives that id back only for palindromes of at most
  ten digits: `Matcher.DecodeRoundTrip`. From real addresses only ten-digit numbers over the digits
  2 to 7 are decoded, so the muxed ids of the first 131 merchants never match:
  `Matcher.DecodeOfAddress`, `Matcher.FirstMerchantsNeverHit`.
- A retry does not make up for every error: one between a matched event and its ledger transaction
  loses the row, one between the event and the cursor of the last new payment loses the cursor, all
  others are made up for: `Retries.RetriesRefineIff`, `Retries.CursorRefinesIff`,
  `RetryRuns.RetryAfterAnyStop`; both losses happen: `RetryWitness.RetryLosesRow`,
  `RetryWitness.RetryLosesCursor`.
- The spend limit is checked on the amount, the total stores the gross, and a total of zero is
  refused: `SpendLimit.OvershootIff`, `SpendLimit.BoundIsReached`, `SpendLimit.EmptyWindowLocksOut`.
  Nothing is locked between check and insert, so overlapping creates go beyond the limit by whole
  invoices: `SpendLimit.TwoCallsOvershoot`, `SpendLimit.SingleBoundIffSerial`.
- A creator that dies between inserting the invoice and saving the response switches the conflict
  check off for its key: `Idempotency.LostSaveMeansNoConflict`, `Idempotency.LostSaveHappens`.
- A call that passed its check before another call saved gets that call's invoice, whatever its own
  body: `Idempotency.OtherBodyGetsInvoice`, `Idempotency.ConflictIffSavedAtCheck`.
- The list cursor text is an ISO timestamp, a colon and an id, and is split at colons: no cursor ever
  reads back, and no second page is served: `Pagination.OwnCursorIsMisread`,
  `Pagination.ServedWalkCompletesIff`. Were it split properly, its milliseconds would skip rows:
  `Pagination.MillisecondCursorSkips`, `Pagination.WalkMissesIffSkipped`. The other walk theorems are
  for the intended cursor.
- A Soroban page cut at 200 events can lose events: `Soroban.MissingIffAlwaysCut`,
  `Soroban.PassedIsSettled`, `Soroban.EventIsLost`.
- A manual replay of a delivery that the batch in progress has still to attempt is overwritten:
  `WebhookRaces.ReplayDuringBatch`.
- A prefix length above 32 is not refused but wraps: `Cidr.LongPrefixWraps`.

Where a file holds merge residue the later version is modelled (the webhook worker's second `catch`,
`retry` restricted to failed and dead rows, the second UPDATE of `expireInvoices`). The status set is
that of migration 010.

## Model

| member | source | states |
|---|---|---|
| PaymentTables.PaidDeliveriesExact | reconciler/src/processor.rs:78-87 | A commit queues one invoice.paid delivery for each webhook of the merchant that is active and subscribed to it, none twice, and no other |
| Matcher.DecodeRoundTrip | reconciler/src/matcher.rs:71-73 | Decoding "M" + decimal id (the form of the test fixtures) returns the id if and only if it has at most ten digits and is a palindrome |
| Matcher.DecodeOfAddress | reconciler/src/matcher.rs:67-73 | From a base32 muxed address only ten-digit numbers over the digits 2 to 7 are decoded: its last ten characters backwards, exactly when they are digits |
| Matcher.FirstMerchantsNeverHit | reconciler/src/matcher.rs:28-31 | No payment to a muxed address finds, by muxed id, an invoice of the first 131 merchants |
| Matcher.MatchInvoiceAllowed | reconciler/src/matcher.rs:25-61 | The first-row lookup gives an answer the two SQL lookups and the currency rule allow |
| Matcher.MuxedMatchIsDetermined | reconciler/src/matcher.rs:28-43 | With muxed ids unique, a pending muxed hit decides the answer: that invoice, or none when the currency differs, whatever the memo says |
| InvoiceRules.PartialKeepsMoney | src/invoices/invoices.service.ts:295-328 | A partial payment is accepted exactly for pending or partial, enabled invoices and 1 <= amount <= remaining; it keeps paid + remaining = gross and makes the invoice paid exactly when it covers the rest, else partial |
| InvoiceRules.PartialsSettleExactly | src/invoices/invoices.service.ts:305-318 | A list of partial payments is accepted in full if and only if all are positive and sum to at most the remaining balance; the invoice ends paid if and only if they sum to it |
| Store.Postgres.Cancel | src/invoices/invoices.service.ts:284-293 | Succeeds exactly on a pending or partial invoice of the merchant, which becomes cancelled; every other row, another merchant's too, stays as it was; the effect is the protocol's cancel step |
| Store.Postgres.ApplyPartialPayment | src/invoices/invoices.service.ts:295-328 | Which error comes when, and that it changes nothing; otherwise the new balances and status of the one row |
| Store.Postgres.ExpireDue | src/invoices/invoices.service.ts:331-341 | The pending and partial rows past expiresAt become expired and no other row changes; none that is open is past expiresAt afterwards |
| Store.Postgres.AutoCancelUnpaid | src/invoices/invoices.service.ts:353-363 | The pending and partial rows older than their merchant's ttl become cancelled and no other row changes; none that is open is older afterwards |
| ReconcilerSafety.StepKeepsInv | reconciler/src/processor.rs:15-108 | Every step of the process, a crash, an error, a restart or the invoice service keeps the protocol's invariant |
| ReconcilerTheorems.NoGapBehindCursor | reconciler/src/processor.rs:21-36 | In every run each accepted payment between the first and the saved cursor has an event written for it, and no token has two |
| ReconcilerTheorems.CursorNeverMovesBack | reconciler/src/stream.rs:25-56 | Across crashes, restarts and retries from the older boot cursor the saved cursor never decreases |
| PaymentColumns.ReadsAfterBootCursor | reconciler/src/main.rs:57-60 | A boot reads on after the saved cursor, a retry after the old boot cursor; neither changes a table |
| PaymentColumns.ServiceAdds | src/invoices/invoices.service.ts:128-134 | A created invoice with an unused muxed id is added as it is; a webhook is added, or switched off by its merchant only |
| ReconcilerTheorems.LedgerIsSound | reconciler/src/processor.rs:38-96 | In every run: at most one ledger row per event and per invoice; each row backed by its own event of an unblocked, accepted payment in the invoice's currency and of its exact gross, with the invoice's amounts; conversions pair with rows |
| PaymentColumns.EventsAreGenuine | reconciler/src/processor.rs:111-135 | In every run each event copies a payment of the stream in USDC or EURC of the right issuer or native XLM; it is linked only to an invoice the payment names by muxed id or memo, in its currency, not when blocked, and is a mismatch exactly when its amount is not the gross |
| PaymentColumns.GenuineAreRecorded | reconciler/src/processor.rs:111-135 | In every run each such payment between the first and the saved cursor has an event with its token, payer, amount, asset code and issuer |
| PaymentColumns.LedgerInColumns | reconciler/src/processor.rs:38-96 | In every run a ledger row of a USDC invoice points to an event of code USDC and the configured issuer (EURC and XLM likewise), not blocked, of the exact gross, for a payment that names the invoice; it carries the invoice's merchant, equivalent, fee and net; the invoice is no longer pending |
| ReconcilerTheorems.DeliveriesOfRow | reconciler/src/processor.rs:61-96 | Each ledger row has a commit moment in the run; its deliveries are one per webhook active and subscribed at that moment |
| ReconcilerTheorems.InvoiceMoney | src/invoices/invoices.service.ts:284-377 | In every run balances agree with statuses, a paid invoice with an open balance has a ledger row, terms are fixed, nothing returns to pending, paid/expired/cancelled are final |
| ReconcilerTheorems.MatchedAreAccounted | reconciler/src/processor.rs:59-96 | Matched events = ledger rows + interrupted commits + the commit in progress |
| ReconcilerTheorems.ExactlyOnceIffUninterrupted | reconciler/src/processor.rs:59-96 | Every matched event has its ledger row if and only if no commit was interrupted |
| ReconcilerTheorems.OrphanIsForEver | reconciler/src/processor.rs:21-23 | An event left without a ledger row has none in every continuation |
| ReconcilerTheorems.CommitPaysIff | reconciler/src/processor.rs:74-77 | The commit writes a ledger row in any case and leaves the invoice paid exactly when it was still pending, or already paid |
| ReconcilerWitness.LedgerRowOnCancelledInvoice | reconciler/src/processor.rs:62-77 | A run that ends with a ledger row on a cancelled invoice |
| ReconcilerWitness.CrashLosesPayment | reconciler/src/processor.rs:59-61 | A run after which a matched payment never reaches the ledger, whatever follows |
| Processor.ProcessIsARun | reconciler/src/processor.rs:15-108 | Uninterrupted processing of one payment is a run of the protocol with the same result |
| PaymentColumns.PaymentIgnored | reconciler/src/processor.rs:21-29 | A seen token or any other asset changes nothing; an amount that does not parse is an error that changes nothing |
| PaymentColumns.PaymentRecorded | reconciler/src/processor.rs:31-59 | A new payment in an accepted asset gets one event with its columns and moves the cursor to its token; a blocked one is linked to nothing; a linked one names a pending invoice and carries the screening, or the mismatch exactly when the amount differs |
| PaymentColumns.PaymentSettled | reconciler/src/processor.rs:60-96 | A match of the exact gross adds its ledger row and conversion and makes the invoice paid; any other payment leaves ledger, conversions, invoices and deliveries alone |
| PaymentColumns.PaymentFindsInvoice | reconciler/src/matcher.rs:25-61 | The one pending invoice a payment names, by muxed id or else by memo, is the one it is linked to |
| Processor.StreamIsARun | reconciler/src/stream.rs:47-54 | So is an uninterrupted pass over a stream |
| Processor.ReplayRefines | reconciler/src/stream.rs:47-54 | A stream with repeated tokens and refused payments has the same outcome as the first occurrences of accepted payments alone |
| Processor.ReplayIsIdle | reconciler/src/processor.rs:21-23 | Processing already processed payments again, in any order and number, changes nothing |
| Retries.RetriesRefineIff | reconciler/src/stream.rs:25-32 | With errors at any awaits of any payments and a retry from the boot cursor after each, every table but the cursor ends as after one undisturbed pass if and only if no error fell between a matched event and its ledger transaction; the retries end well if and only if that pass does |
| Retries.CursorRefinesIff | reconciler/src/processor.rs:106-106 | On any stream, also one with a payment that cannot be processed, the cursor ends where one pass leaves it if and only if no error fell between the event and the saved cursor of the last payment that saves one |
| RetryRuns.RetryAfterAnyStop | reconciler/src/stream.rs:25-54 | The same in the protocol, up to the first payment that cannot be processed (where every attempt ends): an error after any number of undisturbed steps, then a pass; tables equal exactly when the process was not about to commit, cursor exactly when it was not between event and cursor with nothing to save after |
| RetryWitness.RetryLosesRow | reconciler/src/processor.rs:59-61 | An error at the transaction after which the retry ends without the ledger row of one pass |
| RetryWitness.RetryLosesCursor | reconciler/src/processor.rs:106-106 | An error at the cursor after which the retry ends without the cursor of one pass |
| Store.Postgres.CommitMatched | reconciler/src/processor.rs:61-96 | The four statements together have exactly the effect of the protocol's commit |
| Store.Postgres.Process | reconciler/src/processor.rs:15-108 | Tables and success of process_payment, with or without an error at one of its awaits, are those of the specification function |
| Store.Postgres.ReadStream | reconciler/src/stream.rs:47-55 | The loop over the lines, with an error at an await of one payment, equals the specified attempt: all before it processed, nothing after |
| Store.Postgres.RunWithBackoff | reconciler/src/stream.rs:25-32 | Attempts with errors at the given awaits until one succeeds; leaves the tables of a single pass if and only if no commit was cut off |
| Settlement.StepKeepsInv | src/settlement/settlement.service.ts:10-57 | Inserts, reading of sums, per-merchant transactions, failures and status changes keep the settlement invariant |
| Settlement.TransactionSettles | src/settlement/settlement.service.ts:24-48 | After a merchant's transaction a settlement of theirs is pending: the one that was and nothing changes, or a new one of the amount read with every untagged row of theirs tagged and no other |
| Settlement.EveryoneSettled | src/settlement/settlement.service.ts:12-18 | Every merchant owed at least 10,000,000 units untagged when the sums were read has a pending settlement at the end |
| Settlement.ArrivalsAndProgress | src/settlement/settlement.service.ts:25-28 | A ledger row that arrives is earned by its merchant only and waits to be settled; a settlement that leaves the pending state keeps merchant and amount |
| Settlement.SettlementConservation | src/settlement/settlement.service.ts:12-48 | Tagged net minus amount is exactly what the merchant earned between the sum and the tagging; amounts are at least 1 USDC; at most one pending settlement per merchant |
| Settlement.MerchantConservation | src/balance/balance.service.ts:39-44 | Per merchant all ledger net = settlement amounts + net of their windows + pending balance |
| Settlement.TagsAreFinal | src/settlement/settlement.service.ts:44-47 | A tagged row keeps its settlement in every run |
| SettlementJob.SettlementService.CreateDailySettlements | src/settlement/settlement.service.ts:10-57 | The loop, with ledger rows arriving before each transaction and an error rolled back at any merchant, is a run of the settlement protocol; without an error every group, and so everyone owed 1 USDC, ends with a pending settlement |
| WebhookRaces.RunKeepsTable | src/webhooks/workers/webhook-delivery.worker.ts:43-103 | Statement by statement, with enqueues, retries and replays between a batch's SELECT and its UPDATEs and workers that die inside a batch: attempts, spacing and state keep agreeing with the tries since the last reset that was not overwritten |
| WebhookRaces.TriesDecideState | src/webhooks/workers/webhook-delivery.worker.ts:79-102 | In every run from an empty table, of those tries: delivered if and only if the last was answered 2xx, dead if and only if there were five and none was, else pending; none follows a 2xx; they are 1, 5, 30 and 120 minutes apart |
| WebhookRaces.QueuedIsDue | src/webhooks/webhooks.service.ts:188-200 | A queued delivery is pending and due at once with nothing tried, and no other row changes |
| WebhookRaces.DeadSpans156Minutes | src/webhooks/workers/webhook-delivery.worker.ts:13-13 | In the same runs a delivery is given up only after 5 attempts, since such a reset, that all failed and span at least 156 minutes |
| WebhookRaces.ReplayDuringBatch | src/webhooks/workers/webhook-delivery.worker.ts:87-90 | A replay in the middle of a batch leaves no trace when its row is still to be attempted; otherwise the row ends the batch reset |
| WebhookRaces.BatchIsTick | src/webhooks/workers/webhook-delivery.worker.ts:25-41 | A SELECT and its UPDATEs with nothing in between are one tick of the queue |
| WebhookQueue.BatchSize | src/webhooks/workers/webhook-delivery.worker.ts:26-35 | A tick attempts min(50, due) rows |
| WebhookQueue.TickAttempts | src/webhooks/workers/webhook-delivery.worker.ts:26-41 | A tick attempts only pending rows of active webhooks whose next_retry_at is null or past, each once; it passes over a due row only for 50 that are not newer; all others stay as they were |
| WebhookQueue.AttemptOutcome | src/webhooks/workers/webhook-delivery.worker.ts:79-112 | 2xx: delivered; fifth failure: dead; else pending and due again 1, 5, 30 or 120 minutes and the jitter after the answer |
| WebhookQueue.TickLowersLeft | src/webhooks/workers/webhook-delivery.worker.ts:37-41 | The attempts left over all rows fall by at least min(50, due) each tick |
| WebhookQueue.QueueDrains | src/webhooks/workers/webhook-delivery.worker.ts:25-41 | Without enqueues and resets, as many ticks with something due as attempts left, among any idle ones, end with nothing waiting |
| WebhookQueue.DrainsByTime | src/webhooks/workers/webhook-delivery.worker.ts:24-41 | With all webhooks active, nothing waits once the ticks have gone on, for each attempt left, one tick gap and one longest wait (tick, two hours, jitter) beyond the time everything is due |
| WebhookQueue.BoundedBypass | src/webhooks/workers/webhook-delivery.worker.ts:25-41 | A delivery due at every tick with k older unfinished ones is passed over by at most k/10 ticks, however many newer ones arrive |
| WebhookWorker.Deliveries.DeliverOne | src/webhooks/workers/webhook-delivery.worker.ts:79-102 | The same on the table, by the answer and the attempts made before, and no other row changes |
| WebhookWorker.Deliveries.DeliverPending | src/webhooks/workers/webhook-delivery.worker.ts:25-41 | The loop over the batch is one tick of the queue |
| WebhookWorker.Deliveries.RetryDelivery | src/webhooks/webhooks.service.ts:142-159 | Makes exactly a failed or dead delivery of the merchant pending, with no attempts and due now, or reports not found and changes nothing |
| WebhookWorker.Deliveries.ReplayDelivery | src/webhooks/webhooks.service.ts:161-186 | Makes any delivery of the merchant's webhook pending, with no attempts and due now, or reports not found and changes nothing |
| Money.ToUnitsExact | src/invoices/invoices.service.ts:37-42 | toUnits is the decimal's value in units, rounded down, exact up to seven fractional digits; refused exactly for zero |
| Money.UnitsRoundTrip | src/invoices/invoices.service.ts:44-48 | toUnits(fromUnits(u)) = u for u >= 1, and zero is refused |
| Money.StripsExactly | src/stellar/stellar.service.ts:54-56 | The regular expression removes exactly the fraction's trailing zeros, and the point with an empty fraction; integer zeros stay |
| Money.StripKeepsUnits | src/stellar/stellar.service.ts:54-56 | Trimming keeps units and whole part, and leaves a plain decimal |
| Money.StellarAmountRoundTrip | src/stellar/stellar.service.ts:54-56 | The operation amount written for u units reads back as u |
| Fees.QuoteSound | src/invoices/invoices.service.ts:101-116 | Rejected exactly below the fixed fee; otherwise gross = amount + fee, net = amount - fixed, 0 <= net < amount < gross and gross = fee + net + fixed |
| Fees.BuiltInCharge | src/invoices/invoices.service.ts:400-409 | What create charges: standard 0.5 % + 2,500,000 units, pro 0.3 % + 1,000,000, rounded down; refused exactly below the fixed part |
| Fees.RoundCharge | src/invoices/invoices.service.ts:400-403 | On 10,000 n units the fee is exactly 50 n + 2,500,000 (standard) or 30 n + 1,000,000 (pro) |
| Fees.ProIsCheaper | src/invoices/invoices.service.ts:400-409 | What standard accepts pro accepts, for a lower fee |
| Fees.EnterpriseFee | src/invoices/invoices.service.ts:400-409 | An enterprise invoice is charged by the plan's own basis points and fixed fee; every create is refused when that fixed fee is zero |
| Fees.BuiltInPlans | src/invoices/invoices.service.ts:405-409 | The fixed fees of the pro and standard tiers in units |
| Fees.SplittingNeverSaves | src/invoices/invoices.service.ts:400-403 | Splitting into n invoices costs between (n-1)(fixed-1) and (n-1)fixed units more than the whole |
| SpendLimit.TotalIsBounded | src/invoices/invoices.service.ts:379-398 | Over any checks, inserts, failures and cancels with at most c creates between check and insert, the total stays within its start or the limit, one fee, and c - 1 times the largest gross |
| SpendLimit.BoundIsReached | src/invoices/invoices.service.ts:386-387 | The bound is attained for every c |
| SpendLimit.SingleBoundIffSerial | src/invoices/invoices.service.ts:90-128 | The bound of a single create (the start, or the limit and one fee) holds of all runs from any window if and only if no check can fall between another create's check and insert |
| SpendLimit.TwoCallsOvershoot | src/invoices/invoices.service.ts:381-387 | Two overlapping creates end a full gross above it |
| SpendLimit.OvershootIff | src/invoices/invoices.service.ts:386-387 | A create on its own keeps the total within the limit exactly when its fee also fits |
| SpendLimit.EmptyWindowLocksOut | src/invoices/invoices.service.ts:386-387 | From a total of zero a limited merchant can never create an invoice in the window |
| SpendLimit.CancelAndFail | src/invoices/invoices.service.ts:379-383 | A cancel takes its invoice's gross out of the total once; a failed create leaves the total |
| SpendLimit.CreateBulk | src/invoices/invoices.service.ts:162-180 | Accepted exactly when 1 to 100 items each pass against the total committed at its check; results in order |
| SpendLimit.BulkBound | src/invoices/invoices.service.ts:162-180 | An n-item bulk adds at most n times (room above the smallest total read + its fee), reached by n items of that size |
| MuxedIds.RankIsPlace | src/invoices/invoices.service.ts:414-418 | The COUNT is the place of registration, unchanged by later merchants |
| MuxedIds.BaseIsReadOrStored | src/invoices/invoices.service.ts:411-430 | A stored base is used as it is, a missing one is counted and stored first; the next number is the sequence plus one, the id base plus number |
| MuxedIds.IssuedIdsDistinct | src/invoices/invoices.service.ts:118-121 | In every interleaving an id is place * 16,777,216 + number; two issued ids are equal exactly when one number overran its block by the distance of the blocks; none are while numbers are at most 16,777,216 |
| MuxedIds.NumbersAreFresh | src/invoices/invoices.service.ts:424-430 | A merchant's numbers are issued in order from 1, without gap or repetition |
| MuxedIds.EarlyIdsNeverDecode | reconciler/src/matcher.rs:67-73 | No muxed address decodes to an id issued to one of the first 131 merchants within its block |
| Idempotency.OneInvoicePerKey | src/invoices/invoices.service.ts:62-75 | Any run with crashes and duplicates creates at most one invoice, and every success returns it |
| Idempotency.ConflictIffSavedAtCheck | src/idempotency/idempotency.service.ts:21-31 | In every run an answered call conflicts if and only if, at the moment of its check, a response with another body was saved; with the same body it gets the saved invoice |
| Idempotency.OtherBodyGetsInvoice | src/invoices/invoices.service.ts:66-75 | The race: a call checked before the save and continued after it gets the other body's invoice |
| Idempotency.LostSaveMeansNoConflict | src/invoices/invoices.service.ts:155-157 | If the creator died before saving, no later call ever conflicts |
| Idempotency.LostSaveHappens | src/invoices/invoices.service.ts:153-157 | That state is reachable |
| Pagination.Limit | src/invoices/invoices.service.ts:183-183 | The requested limit between 1 and 100, 20 when none is given, the nearest bound otherwise |
| Pagination.PageIsNewest | src/invoices/invoices.service.ts:199-213 | A page holds the newest of the rows older than the cursor, limit of them or all, and has a next cursor, of its last row, exactly when there are more |
| Pagination.WalkIsExact | src/invoices/invoices.service.ts:182-214 | For the intended (created_at, id) cursor: a finished walk returns each row present throughout exactly once, any other at most once, none that was never there |
| Pagination.WalkDescends | src/invoices/invoices.service.ts:199-211 | For a cursor cut to any grain: the items of all pages together go strictly from newer to older |
| Pagination.WalkMissesIffSkipped | src/invoices/invoices.service.ts:199-211 | For a cursor cut to any grain (1000 microseconds for toISOString): a row present at each page is missed if and only if it follows the end of some page but not the cursor written for it |
| Pagination.MillisecondCursorSkips | src/invoices/invoices.service.ts:210-210 | A walk with a millisecond cursor that never returns one of three rows |
| Pagination.WalkEnds | src/invoices/invoices.service.ts:207-211 | Each page but the last uses up limit of the rows that ever match below its cursor, whatever changes status meanwhile; so the walk ends |
| Pagination.AnswerExists | src/invoices/invoices.service.ts:199-205 | Every query has an answer of the modelled kind |
| Pagination.CursorTextRoundTrip | src/invoices/invoices.service.ts:190-193 | The cursor text splits back exactly when neither part contains a colon |
| Pagination.OwnCursorIsMisread | src/invoices/invoices.service.ts:190-193 | Of its own ISO cursor the code reads the hours as timestamp and the minutes as id |
| Pagination.ServedWalkCompletesIff | src/invoices/invoices.service.ts:182-214 | By the code's own cursor no second page is served: a list is complete if and only if its rows fit the first page |
| Soroban.StoredOnce | reconciler/src/soroban_indexer.rs:73-110 | Over any polls, errors, half-written pages and restarts each token is stored at most once |
| Soroban.PollMovesOn | reconciler/src/main.rs:67-73 | A poll stores the first 200 events of its range, or those before a database failure, and nothing else; when it succeeds the restart point becomes one before the latest ledger, else it stays |
| Soroban.RestartsFromZero | reconciler/src/main.rs:67-67 | A new process starts from ledger zero and keeps what is stored |
| Soroban.NothingMissed | reconciler/src/main.rs:67-73 | If no page of a successful poll was cut, everything up to the highest returned ledger is stored and the restart point is not beyond it |
| Soroban.PollCompleteIff | reconciler/src/soroban_indexer.rs:43-47 | A poll stores all it asked for exactly when what was cut off was stored before |
| Soroban.MissingIffAlwaysCut | reconciler/src/soroban_indexer.rs:73-110 | Over any run an event is missing if and only if, at every poll that asked for it, at least 200 events of the range (or those handled before a failure) precede it |
| Soroban.PassedIsSettled | reconciler/src/main.rs:70-70 | While the latest ledger does not go back, an event below the restart point was asked for, and is missing in every continuation if and only if every poll so far that asked for it cut it off |
| Soroban.EventIsLost | reconciler/src/soroban_indexer.rs:43-47 | One complete poll over 201 events of a ledger, after which the last is never stored |
| SorobanIndexer.Poller.IndexEvents | reconciler/src/soroban_indexer.rs:73-110 | The loop stores the page, or the part before a database failure, without repetition |
| SorobanIndexer.Poller.PollOnce | reconciler/src/main.rs:68-74 | One turn of the loop is one step of the poller |
| SorobanIndexer.Poller.TryResolveInvoice | reconciler/src/soroban_indexer.rs:115-132 | Returns the invoice of the first topic that is a known muxed id; none exactly when no topic is |
| Cidr.PackIsNumber | src/api-keys/api-keys.service.ts:28-29 | The shift-or reduction of four octets is the address's number |
| Cidr.MatchesIffLeadingBitsAgree | src/api-keys/api-keys.service.ts:18-33 | The mask test holds exactly when both numbers have the same quotient by 2^(32-k) |
| Cidr.AllowedIffLetIn | src/api-keys/api-keys.service.ts:35-39 | The list lets in everyone when empty, else exactly a client whose text is an entry without a slash or whose leading bits are a range's |
| Cidr.ExactEntryLetsInOne | src/api-keys/api-keys.service.ts:19-19 | An entry without a slash lets in one text only |
| Cidr.LongPrefixWraps | src/api-keys/api-keys.service.ts:30-30 | Prefix lengths 33 to 64 act as 1 to 32 |
| Cidr.PrefixesNest | src/api-keys/api-keys.service.ts:30-32 | A match under a longer prefix is a match under a shorter one |
| Cidr.EnlargingAllowlist | src/api-keys/api-keys.service.ts:35-39 | Adding entries to a non-empty list removes no client; adding to an empty one restricts to the new entries |

## Left out

- HTTP controllers, guards, GraphQL, PDF, health, metrics, logging, disputes, schedules, onboarding, refunds, team members: small tables or single branches beside the core.
- Horizon, Soroban RPC, KMS, TRM, Redis and the Stellar SDK: their answers are inputs; a failure of any of them is the protocol's error step.
- Floating-point paths: FX conversion, non-USDC fees, the balance total, `Number(..)` in formatStellarAmount, which is modelled from the 7-decimal string on.
- Hashing, signatures, JWT, secret rotation: no content the core depends on.
- Strings with an exponent, a sign or other characters outside the request schema's grammar.
- Several reconcilers, settlement workers or overlapping ticks: the code has no lock for them.
- The per-invoice minimum and maximum, accepted assets and expiry checks of create: they only reject more; in the idempotency model they are the failing validation.
- dispatchEvent after expiry and TTL cancel: its insert is the queue's enqueue step; the event type it sends is not one a webhook can subscribe to.
- settlement_scheduled_at: the code clears it but never consults it.
- Settlement, webhook, idempotency, muxed-id and spend-limit models have their own rows: each keeps only the columns its code reads or writes, and the reconciler's commit appears in the settlement model as an insert.
- Pagination.WalkIsExact: supposes the intended cursor, since the code's own is never read back; what the code serves is `Pagination.ServedWalkCompletesIff`.
- Pagination.WalkDescends: supposes a cursor that is split properly, for the same reason.
- Pagination.WalkMissesIffSkipped: supposes a cursor that is split properly, for the same reason.
- Pagination.WalkEnds: supposes a cursor that is split properly, for the same reason.
- Matcher.MatchInvoice: where several pending invoices share a memo SQL leaves open which is fetched; the function takes the first row, the protocol allows any.
