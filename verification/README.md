# A verified model of the settlement service

This project models the parts of the OpenPay settlement service that move money or decide what a
caller sees, and proves what they keep over whole runs. `dafny verify dfyconfig.toml` checks all of
it.

## How it is organised

| module | what it is |
|---|---|
| `Fees`, `Centavos`, `Int64` | the three-way fee split, its int64 arithmetic, and the trip of an amount through a float |
| `Balances`, `Payments`, `Subscriptions` | one table each: the rows, what each SQL statement does to them, and the repository as a class |
| `Journal` | the history of acknowledged money movements; a history variable, not part of the program |
| `Ledger` | the service as a state machine: what one delivery, refund, payout or new charge does to the tables, with a choice for every repository call that may fail |
| `Held` | the payments that funds were held for, read off the journal |
| `LedgerWrites`, `LedgerRuns` | every step is a sequence of writes, every write keeps the books, and what follows for every run |
| `Agreement` | when a balance agrees with the payment rows it was credited for |
| `PendingCover` | how far pending can run ahead of the charges it was held for |
| `Acknowledged` | what an acknowledged delivery has done, read off the tables, and what no delivery touches |
| `Redelivery`, `Interleaved` | what happens when OpenPay delivers the same event again, at once or while other steps come in between |
| `Ingress`, `PaymentService` | the handlers as methods over the repositories, proved to do what `Ledger` says |
| `Dispatcher` | outbound deliveries: attempts, backoff, dead letters, manual retries |
| `Digits`, `Base64Url`, `Cursor`, `Keyset`, `Pagination`, `Filters`, `Listings` | page tokens, keyset pages, the SQL filter builders, and whole listings made of them |
| `Signer` | the webhook signature header: printer, parser and verifier |
| `Links` | redeeming, expiring and cancelling payment and subscription links |
| `RateLimit` | the per-minute request counter |

A failing repository call, clock readings, fresh ids and what OpenPay answers are parameters, so a
theorem over all runs covers every combination of them. Code that updates rows or fields in place is
a class whose methods are proved against functions on values; the run theorems are about those
functions. A statement that fails changes nothing. Constraint errors (the CHECKs, the unique indexes
and the SMALLINT counter) are computed, not chosen.

## What the proofs found

Where the code and its own comments disagree, the model follows the code.

- `SettlePayment` has no status guard: a delivery acknowledged twice credits twice
  (`Redelivery.AcknowledgedTwiceCreditsTwice`). A settlement keeps the difference between a balance
  and its rows if and only if the row showed no net before (`Agreement.ChargeGapIff`,
  `Agreement.CycleGapIff`), so `Agreement.AvailableAgreesWithRows` asks for that before each delivery
  that settles; `LedgerRuns.AvailableAgainstRows` asks for nothing and names the three causes of a
  difference.
- A billing cycle credits the subscription's tenant. When its payment row belongs to another tenant,
  and only then, the row shows a net its own tenant never got (`Agreement.CreditFollowsRowIff`). A
  failed cycle releases the hold on the subscription's tenant in the same way, and then the pending of
  the row's owner is covered by nothing (`PendingCover.StrayReleaseUncovers`;
  `PendingCover.CloseKeepsCoverIff` and `PendingCover.SettleKeepsCoverIff` say exactly when).
- Creating a payment and holding its gross with `AddPending` are two calls. When the settlement comes
  between them, pending keeps a hold no open charge accounts for (`PendingCover.HoldKeepsCoverIff`,
  `PendingCover.LateHoldUncovers`).
- Comments in `internal/domain/payment.go` and `migrations/015_platform_fee_structure.sql` say that
  the platform fee of an inclusive tenant may be negative; the CHECKs of
  `migrations/003_create_payments.sql` refuse such a row, so the delivery is answered 500 every time,
  one-time charge or billing cycle (`Fees.SettlementPassesIff`, `Interleaved.RefusedEveryTime`).
- `internal/repository/interfaces.go` says that a failed charge changes the status when the plan's
  retries are used up. The SQL sets `past_due` on every failure, also after a cancellation
  (`Subscriptions.CancelledIsNotTerminal`).
- A page token of a row created after the year 9999 is never read back (`Cursor.CursorRoundTrip`).
- The age of a signature is computed in int64 and wraps (`Signer.WrongAgeIff`,
  `Signer.AncientAccepted`). A signature from the future is always young enough.
- `internal/domain/webhook.go` asks for as many intervals as attempts; the last one is never waited
  for (`Dispatcher.LastIntervalUnused`), and an empty list makes the first failure panic
  (`Dispatcher.PanicsIff`).
- The expiry of a link is checked before OpenPay is called, so a charge can be later than the expiry
  (`Links.ChargedLateIff`).
- A redeemed link whose status could not be written is reported as redeemed and can be charged again
  (`Links.ToldRedeemed`, `Links.OperationsAreCounted`).
- The 90-second expiry of a rate-limit counter is exactly enough for pipelines delayed by up to 30
  seconds (`RateLimit.ExpirySpares`, `RateLimit.SlackIsNeeded`).

## Model

| member | source | states |
|---|---|---|
| Fees.NetAmountForCharge | internal/domain/payment.go:100-111 | the parts add up to the gross, and each side gets its share: an inclusive tenant the gross less the constant and the platform the constant less OpenPay's fee; any other tenant pays the constant to the platform and OpenPay's fee on top; the constant is bps ten-thousandths of the gross, cut off toward zero, and the fixed part |
| Fees.SharesDecide | internal/domain/payment.go:100-111 | those shares determine the split |
| Fees.SplitIsExact | internal/domain/payment.go:100-111 | the int64 split is the exact one whenever the product and both results are representable, even if a sum in between wraps |
| Fees.BatchRounding | internal/domain/payment.go:100-104 | the percentage fee of a total exceeds the sum of the n single fees by 0 to n - 1 centavos |
| Fees.SettlementPassesIff | migrations/003_create_payments.sql:25-28 | for any amounts and configuration, a settlement passes the row CHECKs exactly when the fees fit in the gross (added) or the constant lies between OpenPay's fee and the gross (inclusive), nothing negative |
| Centavos.CentavosSurvive | internal/webhook/ingress.go:644-646 | every amount from 0 to 2^51 - 1 centavos, sent as float pesos and rounded back, is the same amount |
| Balances.AbsentRowActsAsZero | internal/repository/postgres/balance_repo.go:183-207 | for a settlement an absent row acts as (0, 0) if and only if the gross is not negative |
| Balances.ConstraintDoesNotHelp | migrations/004_create_balances.sql:13 | the UNIQUE constraint accepts two tenant-level rows for one key |
| Balances.UpdateRefines | internal/repository/postgres/balance_repo.go:183-195 | an UPDATE of the rows is the same change of one table entry, or none, and leaves one row per key |
| Balances.InsertRefines | internal/repository/postgres/balance_repo.go:196-206 | an INSERT after an UPDATE that hit nothing adds one entry and leaves one row per key |
| Balances.BalanceRepo.constructor | internal/repository/postgres/balance_repo.go:24-31 | the empty table satisfies the invariant |
| Balances.BalanceRepo.WriteTenantBalance | internal/repository/postgres/balance_repo.go:238-248 | update-or-insert keeps one row per key and changes one entry, or nothing when a statement fails |
| Balances.BalanceRepo.UpsertTenantBalance | internal/repository/postgres/balance_repo.go:44-61 | the entry becomes the given balance; member rows are kept |
| Balances.BalanceRepo.AddPending | internal/repository/postgres/balance_repo.go:156-172 | pending grows by the amount, an absent row counting as (0, 0) |
| Balances.BalanceRepo.ExecUpdate | internal/repository/postgres/balance_repo.go:183-195 | one UPDATE: whether a row was affected, and the new table |
| Balances.BalanceRepo.CreditSettlement | internal/repository/postgres/balance_repo.go:183-207 | available grows by net, pending shrinks by gross but not below 0, an absent row becomes (net, 0); succeeds exactly when the statements it needs do |
| Balances.BalanceRepo.DebitAvailable | internal/repository/postgres/balance_repo.go:216-231 | available shrinks by the amount; an absent row is not found |
| Balances.BalanceRepo.GetTenantBalance | internal/repository/postgres/balance_repo.go:77-84 | reads the table entry, or not found |
| Payments.UpdateById | migrations/003_create_payments.sql:48-50 | an UPDATE by id changes exactly one row |
| Payments.UpdateKeepsValid | migrations/003_create_payments.sql:25-50 | replacing a row by one of the same identity that passes the CHECKs keeps all rows valid |
| Payments.UniqueTxCountsOnce | migrations/003_create_payments.sql:50 | a transaction has at most one row |
| Payments.PaymentRepo.Create | internal/repository/postgres/payment_repo.go:32-66 | appends the row exactly when the insert is answered, the CHECKs hold and no unique index is hit; keeps the row invariant |
| Payments.PaymentRepo.GetByOpenpayTransactionID | internal/repository/postgres/payment_repo.go:78-82 | returns the row of the transaction, not found if there is none |
| Payments.PaymentRepo.UpdateStatus | internal/repository/postgres/payment_repo.go:96-121 | sets status and, when given, the error message of the row with the id, and nothing else |
| Payments.PaymentRepo.SettlePayment | internal/repository/postgres/payment_repo.go:128-149 | writes the fees and completed to the row with the id if the CHECKs hold, whatever its status was |
| Journal.Conservation | internal/repository/postgres/balance_repo.go:156-231 | over any journal: added + what GREATEST swallowed = pending + available + debits + OpenPay fees + platform fees + released holds |
| Journal.DriftByCause | internal/webhook/ingress.go:261-276 | credited net and net shown by the rows differ by resettled, lost and misdirected net, and by nothing else |
| Journal.PendingIsMaxSuffix | internal/repository/postgres/balance_repo.go:183-195 | pending is the largest net sum of holds minus releases over all suffixes of the journal |
| Journal.ClampedIsMaxDeficit | internal/repository/postgres/balance_repo.go:183-195 | the total clamped away is the largest excess of releases over holds in any prefix |
| Journal.CleanJournalHasNoDrift | internal/webhook/ingress.go:261-276 | settled once, every settlement credited, and to the row's owner: none of the three causes occurs |
| LedgerWrites.SettleBillingCycleWrites | internal/webhook/ingress.go:438-473 | settling a billing cycle is a sequence of permitted writes |
| LedgerWrites.DeliveryWrites | internal/webhook/ingress.go:84-192 | every delivery is a sequence of permitted writes, and a disciplined one when amounts and owners agree |
| LedgerWrites.StepWrites | internal/webhook/ingress.go:84-192 | the same for every step of the service |
| LedgerRuns.WriteKeepsBooks | internal/repository/postgres/payment_repo.go:96-149 | every write keeps the invariant: rows valid, and balances and row sums as the journal says |
| LedgerRuns.RunKeepsBooks | internal/webhook/ingress.go:84-192 | every run keeps it |
| LedgerRuns.AvailableIsCreditedNet | internal/webhook/ingress.go:205-294 | in every run, available is the net of the successful credits minus the debits |
| LedgerRuns.AvailableAgainstRows | internal/webhook/ingress.go:205-294 | in every run, available plus debits is the net of the payment rows plus resettled minus lost plus misdirected net |
| Agreement.CreditsFollowRows | internal/webhook/ingress.go:268-276 | if before every delivery of a run the transaction's row and the named subscription have the same tenant, every credit of the run goes to the owner of the settled row |
| Agreement.CreditFollowsRowIff | internal/webhook/ingress.go:464-468 | the credit of an acknowledged billing cycle goes to the row's owner if and only if the two tenants agree; otherwise the row shows the new net and its owner's balance does not move |
| Agreement.AvailableAgreesWithRows | internal/repository/postgres/payment_repo.go:128-149 | before each delivery the owners agree, before each that settles the row shows no net, no credit failed: available is the sum of net_amount over the rows minus debits |
| Agreement.AvailableWhenSettledOnce | internal/repository/postgres/payment_repo.go:128-149 | in particular when each transaction is settled at most once |
| Agreement.DeliveryAppends | internal/webhook/ingress.go:205-505 | only an acknowledged charge writes a settlement; it overwrites the net its row showed and credits the row's owner if the owners agree |
| Agreement.SettlementGapIff | internal/repository/postgres/payment_repo.go:128-149 | settling a row on its owner's account keeps available minus row nets if and only if the row showed no net and was credited, or already showed this net and was not |
| Agreement.ChargeGapIff | internal/webhook/ingress.go:205-294 | the same for every acknowledged one-time charge |
| Agreement.CycleGapIff | internal/webhook/ingress.go:384-505 | the same for every acknowledged billing cycle whose owners agree, on a row found or made |
| LedgerRuns.RunConserves | internal/repository/postgres/balance_repo.go:183-231 | the same in every run, both fee types and all failures mixed; what a release swallows is the part of its gross beyond pending |
| LedgerRuns.PendingClosedForm | internal/repository/postgres/balance_repo.go:156-207 | pending and the clamped total in closed form in every run with non-negative holds |
| PendingCover.WriteKeepsCover | internal/webhook/ingress.go:331-338 | every disciplined write keeps pending covered |
| PendingCover.PendingIsCovered | internal/repository/interfaces.go:201-203 | in every run where each hold is the first for a row still open, of its gross on its owner, amounts agree, and owners agree or the row's owner has the cover to spare: 0 <= pending <= gross of the open rows held for + gross of releases that failed and were logged |
| PendingCover.PendingWithinOpenGross | internal/repository/interfaces.go:201-203 | then also within the gross of all rows still pending or in progress plus those releases |
| PendingCover.HoldKeepsCoverIff | internal/repository/postgres/balance_repo.go:156-172 | the first hold for a row's gross keeps the cover if and only if the row is still open or the cover had that much to spare |
| PendingCover.CloseKeepsCoverIff | internal/webhook/ingress.go:530-540 | closing a row keeps the cover if and only if the release goes to the row's owner or the owner's cover can spare what the row was held for |
| PendingCover.SettleKeepsCoverIff | internal/webhook/ingress.go:458-468 | likewise for settling a row for its recorded gross |
| PendingCover.LateHoldUncovers | internal/repository/postgres/balance_repo.go:156-172 | created, settled, then held: a run whose pending is covered by nothing, for every positive gross |
| PendingCover.StrayReleaseUncovers | internal/webhook/ingress.go:530-540 | held in time, then closed by a failed charge of another tenant's subscription: a run whose pending is covered by nothing, for every positive gross |
| LedgerRuns.RunEvolves | internal/webhook/ingress.go:84-192 | in every run rows keep id, transaction and owner, are not deleted and never reopen; each subscription replays exactly the events acknowledged for it |
| LedgerRuns.SubscriptionRowsInClosedForm | internal/webhook/ingress.go:384-604 | in every run a subscription row is the closed form of its acknowledged events: counter, status with and without a status-fixing event, last charge |
| Acknowledged.DeliveryIsFramed | internal/webhook/ingress.go:84-192 | whatever fails, a delivery changes only rows of its own transaction, the subscription it names, and one account: for a billing cycle that of the subscription's tenant in the row's currency, else that of the row's owner; it adds at most one row, of its transaction |
| Acknowledged.PaymentStays | internal/webhook/ingress.go:84-192 | over any run a payment row stays as it is until a step names its transaction or refunds it |
| Acknowledged.SubscriptionStays | internal/webhook/ingress.go:84-192 | over any run a subscription row stays as it is until a step names it |
| Acknowledged.ChargePaid | internal/webhook/ingress.go:205-294 | acknowledged, whichever calls failed: the row is completed with the shares that the configuration of its own tenant gives and is otherwise unchanged, and either its owner got the net and lost the hold, or no balance changed and the journal has the uncredited entry |
| Acknowledged.BillingCyclePaid | internal/webhook/ingress.go:384-505 | likewise for a billing cycle, with the configuration of the subscription's tenant, on a row found or made for it; the subscription has no open failures, remembers the payment and left trial and past_due, or is as before if the charge could not be recorded |
| Acknowledged.CyclesCollideIff | internal/webhook/ingress.go:417-434 | rows made for two billing cycles collide if and only if they share the id or the transaction, so a subscription's next cycle is accepted |
| Acknowledged.PaymentClosed | internal/webhook/ingress.go:298-356 | each closing event gives its own status and its message, if any, and changes nothing else in the table; the row's gross left pending, or the release failed, no balance changed and the journal says so |
| Acknowledged.BillingCycleFailed | internal/webhook/ingress.go:509-559 | one more failure and past_due whatever the status was; the payment, if looked up and found, failed unless that write was lost, its hold released or the release lost |
| Acknowledged.SubscriptionClosed | internal/webhook/ingress.go:563-604 | that subscription has the status, no other changed, no money moved |
| Redelivery.RetryChangesLittle | internal/webhook/ingress.go:184-189 | a delivery answered 500 changes nothing or leaves one new in_progress row of the billing cycle |
| Redelivery.AfterTheRow | internal/webhook/ingress.go:407-473 | after that row, another 500 changes nothing, and a 200 does what one delivery would have done |
| Redelivery.RetriesConverge | internal/webhook/ingress.go:384-505 | any number of 500s in a row and then a 200 is one 200, for a payment id that some try or the last delivery drew |
| Redelivery.ExactlyOneRow | internal/webhook/ingress.go:384-505 | then exactly one row, completed, has the transaction |
| Redelivery.AcknowledgedTwiceCreditsTwice | internal/repository/postgres/payment_repo.go:128-149 | a one-time charge acknowledged twice is credited twice, its row showing the net once |
| Redelivery.AcknowledgedIff | internal/webhook/ingress.go:205-604 | an event of any kind is acknowledged if and only if the tables hold what it needs and the calls it cannot do without are answered: a charge its row or subscription, a tenant whose fees fit; a closing event a row of any status; a failed cycle a subscription below 32,767 failures; a subscription event the subscription |
| Redelivery.AcknowledgedOnlyIf | internal/webhook/ingress.go:205-604 | whichever calls fail, nothing the tables do not hold is acknowledged |
| Redelivery.DeliveryNeeds | internal/webhook/ingress.go:205-604 | which failing calls turn a 200 into a 500, for every kind of event; the others are only logged |
| Redelivery.OthersAreIgnored | internal/webhook/ingress.go:84-192 | verifications and unknown events are acknowledged and change nothing |
| Interleaved.RefusedEveryTime | internal/webhook/ingress.go:184-189 | a charge without a row or subscription whose tenant's fees fit is answered 500 on every delivery, among any steps that do not add the missing row or subscription or configure a tenant whose fees fit |
| Interleaved.StepBeside | internal/webhook/ingress.go:84-192 | a step that does not name, refund or collide with a transaction does the same whether the rows of that transaction are there or not |
| Interleaved.LeftRowIs | internal/webhook/ingress.go:415-434 | the row a refused cycle leaves is in progress, for the charge's amount, with no fees, under its own key |
| Interleaved.RetriesConvergeAmongOthers | internal/webhook/ingress.go:384-505 | any number of 500s among any steps apart from the transaction, and then a 200: the tables and journal of those steps and one acknowledged delivery, up to the position of the row, for a payment id some try or the last delivery drew |
| Ingress.IngressHandler.constructor | internal/webhook/ingress.go:58-76 | the handler starts with an empty journal |
| Ingress.IngressHandler.ServeEvent | internal/webhook/ingress.go:84-192 | the dispatch over the repositories has the effect and the answer of the state machine's delivery |
| Ingress.IngressHandler.OnChargeSucceeded | internal/webhook/ingress.go:205-294 | likewise, for a charge: look up, settle, credit; a failed credit is only logged |
| Ingress.IngressHandler.OnChargeStatus | internal/webhook/ingress.go:298-356 | likewise, for failed, cancelled, refunded and charged-back payments |
| Ingress.IngressHandler.ReleaseHold | internal/webhook/ingress.go:331-338 | releases the gross the payment had, if positive, whatever its status was |
| Ingress.IngressHandler.OnSubscriptionChargeSucceeded | internal/webhook/ingress.go:384-505 | likewise, creating the row of a billing cycle on the fly |
| Ingress.IngressHandler.SettleCycle | internal/webhook/ingress.go:438-473 | settle, credit the subscription's tenant, record the charge |
| Ingress.IngressHandler.OnSubscriptionChargeFailed | internal/webhook/ingress.go:509-559 | likewise, for a failed billing cycle |
| Ingress.IngressHandler.OnSubscriptionStatusChange | internal/webhook/ingress.go:563-604 | likewise, for cancelled and deactivated subscriptions |
| PaymentService.PaymentService.RefundPayment | internal/service/payment_service.go:177-221 | refunded if and only if the three calls succeed and some row has this id, this tenant and is completed, and then that row alone changes; not found and failed precondition exactly when no such row, or none completed, is there; the state machine's refund |
| PaymentService.OnlyOwnCompletedPayments | internal/repository/postgres/payment_repo.go:70-74 | a refund by another tenant, or of a payment that is not completed, changes nothing |
| PaymentService.RefundIff | internal/service/payment_service.go:187-215 | a completed payment of the tenant becomes refunded exactly when the three calls succeed |
| Subscriptions.CounterClosedForm | internal/repository/postgres/subscription_repo.go:305-347 | the counter is the number of failures since the last success |
| Subscriptions.StatusClosedForm | internal/repository/postgres/subscription_repo.go:288-347 | the status is fixed by the last failed or status-setting event and whether a success follows it |
| Subscriptions.StatusWithoutFix | internal/repository/postgres/subscription_repo.go:305-325 | without such an event, by the starting status and whether there was a success |
| Subscriptions.FixedOrNot | internal/repository/postgres/subscription_repo.go:288-347 | every history is of one of these two kinds |
| Subscriptions.LastChargeClosedForm | internal/repository/postgres/subscription_repo.go:305-325 | last_charge_id is the payment of the last recorded charge |
| Subscriptions.FlagClosedForm | internal/repository/postgres/subscription_repo.go:352-364 | cancel_at_period_end is set exactly when it was or a cancellation was scheduled; no event changes whose subscription it is |
| Subscriptions.PastDueMeansFailures | internal/repository/postgres/subscription_repo.go:288-347 | from trial or active with count 0: past_due implies a positive count, and that implies past_due, cancelled or unpaid |
| Subscriptions.CancelledIsNotTerminal | internal/repository/postgres/subscription_repo.go:331-347 | a failure after a cancellation sets past_due, and a success after that active |
| Subscriptions.SubscriptionRepo.Create | internal/repository/postgres/subscription_repo.go:171-193 | appends the row exactly when no id is taken and the counter passes its CHECK and fits a SMALLINT |
| Subscriptions.SubscriptionRepo.GetByOpenpaySubID | internal/repository/postgres/subscription_repo.go:210-223 | returns the row, not found if there is none |
| Subscriptions.SubscriptionRepo.UpdateStatus | internal/repository/postgres/subscription_repo.go:288-300 | the row with the id takes the status, or an error and no change |
| Subscriptions.SubscriptionRepo.RecordCharge | internal/repository/postgres/subscription_repo.go:305-325 | likewise last charge, counter 0, and active from trial or past_due |
| Subscriptions.SubscriptionRepo.IncrementFailedCharge | internal/repository/postgres/subscription_repo.go:331-347 | likewise counter + 1 and past_due; a full SMALLINT is an error |
| Subscriptions.SubscriptionRepo.SetCancelAtPeriodEnd | internal/repository/postgres/subscription_repo.go:352-364 | likewise the flag |
| Dispatcher.PanicsIff | internal/webhook/dispatcher.go:107-111 | the backoff index is out of range if and only if a retry is due and no interval is configured |
| Dispatcher.WebhookDispatcher.Dispatch | internal/webhook/dispatcher.go:45-96 | an attempt that reaches the HTTP call counts; an answer of 200 to 299 leaves the copy delivered at any attempt count, anything else dlq from maxAttempts on and failed before; the stored row follows the copy unless the write or the index fails; an attempt that does not reach the call changes nothing |
| Dispatcher.WebhookDispatcher.HandleFailure | internal/webhook/dispatcher.go:98-115 | dlq from maxAttempts on, else failed and due after the wait of this attempt |
| Dispatcher.WebhookDispatcher.UpdateDelivery | internal/repository/postgres/webhook_repo.go:275-287 | overwrites the whole row, or nothing |
| Dispatcher.WebhookDispatcher.RetryWebhookDelivery | internal/service/webhook_service.go:283-311 | resets the stored row to pending and due at once, attempts kept |
| Dispatcher.RetriedIsDue | internal/service/webhook_service.go:302-305 | after a manual retry any row, dead or delivered, is due at once with its attempts kept |
| Dispatcher.AttemptsBounded | internal/webhook/dispatcher.go:98-100 | in any interleaving of list, dispatch and retry, with stale copies, lost writes and copies dispatched again, attempts <= maxAttempts + retries |
| Dispatcher.WorkEnds | internal/repository/postgres/webhook_repo.go:289-297 | one worker: attempts count the rounds, which never exceed maxAttempts; the delivery ends exactly at a success or at the last attempt |
| Dispatcher.OutcomeIff | internal/webhook/dispatcher.go:72-106 | after any rounds: delivered if and only if the last answer was 200 to 299, dlq if and only if it was not and the attempts are used up, failed otherwise |
| Dispatcher.WorkGoesOn | internal/repository/postgres/webhook_repo.go:289-297 | a row neither delivered nor dead can be taken up again from its retry time on |
| Dispatcher.FailureSchedules | internal/webhook/dispatcher.go:106-112 | after the k-th failure the row is due after intervals[min(k, len) - 1] |
| Dispatcher.RoundsAreApart | internal/repository/postgres/webhook_repo.go:293-295 | consecutive attempts are at least that wait apart |
| Dispatcher.TotalWait | internal/webhook/dispatcher.go:98-113 | the n-th attempt comes at least the first n - 1 waits after the first failure |
| Dispatcher.LastIntervalUnused | internal/domain/webhook.go:20-24 | with as many intervals as attempts, replacing the last one changes no run |
| Dispatcher.DefaultTotalWait | internal/domain/webhook.go:26-30 | under the default policy a dead letter waited at least 25,955 seconds over 7 attempts |
| Base64Url.RoundTrip | internal/repository/postgres/payment_repo.go:418-428 | base64url without padding (section 5 of RFC 4648): decoding undoes encoding for every byte string |
| Base64Url.CutKeepsBits | internal/repository/postgres/payment_repo.go:420 | the groups are the bits of the bytes in order, the last one filled with zero bits |
| Base64Url.CharsAt | internal/repository/postgres/payment_repo.go:420 | each group is written in its place in the alphabet of section 5 of RFC 4648 |
| Cursor.TimeRoundTrip | internal/repository/postgres/payment_repo.go:419-432 | a UTC timestamp printed with nanoseconds (section 5.6 of RFC 3339) is read back, up to the year 9999 |
| Cursor.TimeShape | internal/repository/postgres/payment_repo.go:419 | the text is YYYY-MM-DDTHH:MM:SS, the fraction and Z |
| Cursor.TrimmedDigits | internal/repository/postgres/payment_repo.go:419 | the fraction ends in no zero, and is left out when it is zero |
| Cursor.LongYearsDoNotParse | internal/repository/postgres/payment_repo.go:432-435 | and is refused after it |
| Cursor.UuidRoundTrip | internal/repository/postgres/payment_repo.go:436 | a printed UUID is read back |
| Cursor.UuidShape | internal/repository/postgres/payment_repo.go:419 | the text is the five groups of 8, 4, 4, 4 and 12 digits joined by '-' |
| Cursor.CursorRoundTrip | internal/repository/postgres/payment_repo.go:418-441 | decoding a cursor gives the position back if and only if its year is at most 9999 |
| Keyset.SortedIsUnique | internal/repository/postgres/payment_repo.go:223-226 | a set of rows has one descending listing |
| Keyset.List | internal/repository/postgres/payment_repo.go:234-253 | the append loop and the cut: a page and the token of its last row if one more row came |
| Keyset.SessionCatches | internal/repository/postgres/payment_repo.go:208-253 | after any number of calls, with any changes between them: strictly descending, nothing that matched all the time passed over |
| Keyset.SessionMissesNothing | internal/repository/postgres/payment_repo.go:208-253 | a finished session returns no key twice, every key that matched all the time, and only keys that matched at some time |
| Keyset.CallsNeeded | internal/repository/postgres/payment_repo.go:246-251 | on an unchanging table a finished session takes max(1, ceil(n / size)) calls |
| Keyset.PagesReassemble | internal/repository/postgres/payment_repo.go:208-253 | the pages joined are the whole sorted listing |
| Keyset.SessionsEnd | internal/repository/postgres/payment_repo.go:246-251 | while a token comes back, fewer rows were returned than there are |
| Pagination.PageSize | internal/repository/postgres/payment_repo.go:217-220 | a page size in range (at least 1, at most 100 where the listing caps it) is kept, any other becomes 20 |
| Pagination.ByCreationIsLawful | internal/repository/postgres/payment_repo.go:208-226 | (created_at, id) is a total order and its tokens are read back |
| Filters.CompileSays | internal/repository/postgres/payment_repo.go:153-215 | the numbered clause with its arguments is the conjunction of the options that are given, and its placeholders are 1, 2, ... in order |
| Filters.PaymentFilterMeans | internal/repository/postgres/payment_repo.go:158-215 | for payments that conjunction is what the options ask |
| Filters.AddKinds | internal/repository/postgres/payment_repo.go:168-182 | statuses, methods and currency are added, idx = len(args) + 1 kept |
| Filters.AddAmounts | internal/repository/postgres/payment_repo.go:183-197 | amount range and order are added, idx = len(args) + 1 kept |
| Filters.AddDates | internal/repository/postgres/payment_repo.go:198-215 | dates and cursor are added, idx = len(args) + 1 kept |
| Filters.BuildPaymentQuery | internal/repository/postgres/payment_repo.go:153-226 | the built query selects exactly the wanted payments below the token's cursor; placeholders run 1, 2, ... and LIMIT's is the last |
| Filters.CursorIsKeyset | internal/repository/postgres/payment_repo.go:208-215 | with a page token the query selects, among the rows it selects without, those after the token in the (created_at, id) scheme |
| Filters.SubscriptionConditions | internal/repository/postgres/subscription_repo.go:231-253 | the builder that counts with len(args) compiles the same way |
| Filters.BuildSubscriptionQuery | internal/repository/postgres/subscription_repo.go:225-259 | the built query selects exactly the wanted subscriptions below the token's cursor, numbered in order |
| Filters.SameNumbering | internal/repository/postgres/subscription_repo.go:231-259 | for every list of options, counting with idx and counting with len(args) give the same clause, arguments and numbers, and idx is one more than the arguments |
| Listings.WhereIsSorted | internal/repository/postgres/payment_repo.go:208-226 | the rows the query selects from a table in index order are the sorted listing of the wanted keys below the cursor |
| Listings.OneExtraRow | internal/repository/postgres/payment_repo.go:221-251 | LIMIT size + 1 loses nothing the page or its token needs |
| Listings.AnswerIsPage | internal/repository/postgres/payment_repo.go:221-251 | LIMIT size + 1 over them, cut by the loop, is the page and the next token |
| Listings.ListPayments | internal/repository/postgres/payment_repo.go:153-254 | one call, decoding the token, building the query, cutting the answer: wanted payments of the table, whose keys and next token are the keyset page |
| Listings.ListSubscriptions | internal/repository/postgres/subscription_repo.go:225-286 | likewise for the subscriptions |
| Listings.ListingMissesNothing | internal/repository/postgres/payment_repo.go:208-253 | following tokens over tables with rows inserted, updated or deleted meanwhile: newest first, no key twice, every key wanted during all calls returned, unchanged rows as they are, only rows that were there and wanted during some call |
| Listings.ListingReassembles | internal/repository/postgres/payment_repo.go:208-253 | on a table nobody writes the pages joined are the filtered table, in max(1, ceil(n / size)) calls |
| Listings.PaymentsListed | internal/repository/postgres/payment_repo.go:153-254 | both, for any payment options |
| Listings.SubscriptionsListed | internal/repository/postgres/subscription_repo.go:225-286 | both, for any subscription options |
| Signer.FieldsUndoJoin | internal/webhook/signer.go:69-84 | splitting undoes comma-joining of comma-free parts, except that an empty last part is lost |
| Signer.JoinUndoesFields | internal/webhook/signer.go:69-84 | joining the split gives the text back, up to one comma at its end |
| Signer.SplitCSV | internal/webhook/signer.go:69-84 | the loop over runes computes the comma-separated fields of the text, each byte that is not valid UTF-8 read as U+FFFD (section 4 of RFC 3629) |
| Signer.SplitUndoesJoin | internal/webhook/signer.go:69-84 | it undoes comma-joining of valid comma-free texts whose last one is not empty, and drops an empty last one |
| Signer.RunesAfterValid | internal/webhook/signer.go:72 | ranging over runes leaves valid text in front as it is |
| Signer.ScalarIsRune | internal/webhook/signer.go:72 | text that starts with the bytes of a Unicode scalar value (section 3 of RFC 3629) starts with a rune of that width |
| Signer.RuneIsScalar | internal/webhook/signer.go:72 | and every rune is the bytes of one, so all else is invalid |
| Signer.InvalidIsReplaced | internal/webhook/signer.go:77 | an invalid byte alone is replaced by the bytes of U+FFFD |
| Signer.SplitKV | internal/webhook/signer.go:86-93 | the loop over runes splits at the first '=' or reports that there is none |
| Signer.ParseFormatted | internal/webhook/signer.go:23-54 | a printed int64 is read back, and nothing else is |
| Signer.ParseSigned | internal/webhook/signer.go:51 | a numeral is read with a minus, with a plus or without a sign, within int64 |
| Signer.PayloadInjective | internal/webhook/signer.go:24 | the signed text determines both the timestamp and the body |
| Signer.VerifySignature | internal/webhook/signer.go:35-67 | accepts exactly the headers whose last t and v1 are present, parse, are young enough and carry the digest |
| Signer.CheckValues | internal/webhook/signer.go:48-66 | the decision on the two values |
| Signer.ReadHeader | internal/webhook/signer.go:36-46 | the last value of each key wins |
| Signer.LastWins | internal/webhook/signer.go:37-46 | a key's value is that of the last part with it |
| Signer.HeaderVerifies | internal/webhook/signer.go:22-67 | a header made for one secret, body and time is accepted for another secret and body if and only if it is not too old and the digests agree |
| Signer.HeaderText | internal/webhook/signer.go:22-31 | the header is t=<timestamp> and v1=<digest of timestamp, '.' and body>, joined by a comma |
| Signer.HeaderParts | internal/webhook/signer.go:22-46 | and it is split into just these two |
| Signer.HexTextShape | internal/webhook/signer.go:28 | a digest is written as 64 digits in lower case |
| Signer.SameSecretVerifies | internal/webhook/signer.go:56-58 | for the same secret and body: exactly while now - ts <= tolerance, both clocks past 1970 |
| Signer.WrongAgeIff | internal/webhook/signer.go:56-58 | for all int64 clocks, exactly when the wrapped age decides wrongly |
| Signer.AncientAccepted | internal/webhook/signer.go:56-58 | a timestamp whose age overflows is accepted |
| Links.MemberService.UpdateLink | internal/repository/postgres/member_repo.go:245-257 | writes the link's row, or nothing |
| Links.MemberService.RedeemPaymentLink | internal/service/member_service.go:924-1062 | has the effect and the answer of the value-level redemption, for every failing step |
| Links.MemberService.RedeemSubscriptionLink | internal/service/member_service.go:737-876 | likewise; a subscription that could not be stored leaves the link pending |
| Links.MemberService.ExpirePaymentLink | internal/service/member_service.go:503-531 | answers success if and only if the link was found, was open and the write went through, and then its row is cancelled; otherwise the row is as it was; nothing is charged |
| Links.OperationMadeIff | internal/service/member_service.go:924-1014 | an operation is made if and only if an open link is redeemed in time, every step before OpenPay went well, and OpenPay does not refuse |
| Links.RowAfterRedemption | internal/service/member_service.go:943-1050 | the row after a redemption: done, expired or as it was, exactly when |
| Links.RedemptionReply | internal/service/member_service.go:924-1061 | what the caller is told, exactly when |
| Links.CancellationIff | internal/service/member_service.go:503-531 | a cancellation succeeds if and only if the link is found open and the write goes through; otherwise nothing changes |
| Links.CancelStep | internal/service/member_service.go:522-530 | a cancellation in any run does just that |
| Links.NothingAfterCancelling | internal/service/member_service.go:943-945 | after it succeeded no sequence of calls makes an operation or redeems the link |
| Links.OperationsAreCounted | internal/service/member_service.go:1010-1050 | over every run: operations at OpenPay = 1 if the link was redeemed + one for every slip (lost answer, unstored subscription, unwritten status) |
| Links.ClosedIsFinal | internal/service/member_service.go:943-945 | redeemed, expired and cancelled links never change and are never charged |
| Links.OperationsAreTimely | internal/service/member_service.go:943-950 | every operation was made by a redemption that found the expiry not passed |
| Links.NothingAfterExpiry | internal/service/member_service.go:946-950 | once the expiry has passed, no sequence of calls makes an operation or redeems the link |
| Links.ChargedLateIff | internal/service/member_service.go:946-1010 | a redemption makes an operation later than the link's expiry if and only if the expiry lies between check and call and nothing else stops it |
| Links.LateByAtMost | internal/service/member_service.go:946-1010 | if OpenPay is called at most d after the check, no operation of any run is later than d after the expiry |
| Links.ToldRedeemed | internal/service/member_service.go:1045-1061 | the answer says redeemed whether or not the row does; the row does exactly when the last write went through |
| RateLimit.RateLimiter.SlidingWindowAllow | internal/middleware/ratelimit.go:62-78 | counts the call in its minute and allows up to rpm; an error allows |
| RateLimit.RateLimiter.RateLimitInterceptor | internal/middleware/ratelimit.go:43-56 | the handler runs if allowed or if Redis failed |
| RateLimit.ExpirySpares | internal/middleware/ratelimit.go:68 | the 90 s expiry never resets a counter while calls of its own minute arrive |
| RateLimit.SlackIsNeeded | internal/middleware/ratelimit.go:68 | one nanosecond more than 30 seconds of delay can find it reset |
| RateLimit.KeyGoes | internal/middleware/ratelimit.go:66-68 | an answered call makes the key last 90 s from then; counting alone neither prolongs nor lifts that |
| RateLimit.CounterCounts | internal/middleware/ratelimit.go:66-69 | the counter lies between the answered calls of its minute and those plus the lost ones |
| RateLimit.FirstRpmAreLetThrough | internal/middleware/ratelimit.go:73-77 | with no lost call in the minute, a request passes if and only if fewer than rpm came before it |
| RateLimit.AtMostRpmAnswered | internal/middleware/ratelimit.go:73-77 | of the answered calls of a minute at most rpm pass |
| RateLimit.AdmittedSplits | internal/middleware/ratelimit.go:44-47 | a Redis failure lets the request through, always |
| RateLimit.AdmittedBounds | internal/middleware/ratelimit.go:43-78 | at most rpm per minute bucket, and one more per lost call |
| RateLimit.AtMostTwice | internal/middleware/ratelimit.go:43-78 | at most 2 rpm in any 60 seconds, and one more per call lost in them |
| RateLimit.TwiceInOneSecond | internal/middleware/ratelimit.go:64 | and that many really pass within one second |

## Left out

- Transport and formats: HTTP, gRPC, Kafka, S3, Redis and PostgreSQL protocols, JSON decoding of events, authentication, configuration and logging. Events arrive parsed; a failed publish has no effect on the tables.
- Columns nothing is decided by: timestamps, descriptions, card and bank fields, latency and error text of deliveries, payment method and member of ledger rows.
- Database errors other than the CHECKs, the unique indexes and the SMALLINT counter (BIGINT range, foreign keys, CHAR(3)): covered as calls that fail.
- Concurrency: repository calls of one handler run without interleaving, and so do balance-row creation, link redemption and the two commands of a Redis pipeline, where the code takes no lock. `Dispatcher.AttemptsBounded` is the exception: it covers every interleaving.
- `BalanceRepo.List`, `GetHistory`, member balances, disbursement scheduling, tenant administration, offset pagination, protobuf converters, CLABE masking: no property beyond their bodies.
- The member, plan and payment-link listings page as `Listings` says for any filter; their builders have the shape of the two in `Filters` and are not written out again. A failing or unreadable row ends a listing with an error, which is not modelled.
- AES-GCM, SHA-256, HMAC and token generation: the digest is any function to 32 bytes, ids are parameters.
- Fees.NetAmountForCharge: is over unbounded integers, as is the whole ledger; `Fees.SplitIsExact` says when the int64 result is the same.
- Centavos.CentavosSurvive: uses only the relative error bound of binary64 rounding, not its bit patterns; the ledger starts from centavos.
- Cursor.CursorRoundTrip: is about tokens the service makes. Hand-made tokens with another time zone, or with another text form of the UUID, are read by the program and not by the model.
- Filters.BuildPaymentQuery: keeps the clause in parsed form, one condition per AND, with text compared exactly.
- Listings.ListPayments: takes the table in index order, so ORDER BY keeps that order; a table is a sequence of rows with one row per (created_at, id).
- Agreement.AvailableAgreesWithRows: that no settled row is settled again stays a hypothesis about the deliveries that happen, since the code has no guard.
- Interleaved.RetriesConvergeAmongOthers: is up to the order of the payment rows, which no statement of the service depends on.
- Dispatcher.AttemptsBounded: bounds the attempts the row records; an attempt whose update was lost is not on the row.
- RateLimit.AtMostTwice: one tenant with a fixed tier; the burst figure of a tier is never used by the program.
