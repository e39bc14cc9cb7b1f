# Verified model of the signal bot's money and signal paths

The repository is a Telegram bot that sells subscriptions to liquidation alerts. This project models the parts
where a mistake costs money or loses an alert, and proves what they promise for every input, every run and every
interleaving.

**Payments.** Users, invoices and an append-only ledger are rows of a database. Providers answer with snapshots that
may be stale, duplicated or reordered by the time they are applied; admins approve, users upload screenshots, a worker
expires invoices, a Redis lock with a timeout serialises most of it and may be outlived. Money is in cents, time in
seconds. `Payments` gives every transaction as a function on the database, `BillingStore` performs the same
transactions statement by statement on mutable tables and is proved equal to it, and `Effects` says what each of them
does on rows, ledger entries and answers, without naming those functions. `Protocol` is the concurrent machine
whose steps are reads, lock operations, transactions, late writes and crashes, `Safety` its invariant and `Guarantees`
what follows for every run. `Ledger` covers the text search that finds an invoice's deposits; the meaning of the ledger
(`Deposits`, `Charges`, `UserTotal`) is defined without any text. `LockSafety` says what the lock guarantees and that it
can be outlived; the run theorems of `Guarantees` hold all the same, and for any ids. `Lifecycle` follows an invoice
when every handler call is one step, `StatusRuns` its status and recorded amount over the runs of the protocol,
`Subscriptions` renewals, free periods and referrers over those runs, `PaymentWorker` the passes of the polling worker,
and `Interleaving` shows that an undisturbed handler call is such a run, and holds the runs that show what can go wrong.

**Signals.** `Pipeline` is the stream between the renderer and the messenger, with the charts and their cache, lost
replies and crashes;
`TokenBucket` the limiter of chart rendering; `SymbolLocks` the counted locks per symbol; `Prefilter` the global early
exit and the trigger rules; `AntiSpam` the alert history; `Messenger` the worker that reads the ready stream, consults
that history, sends the alerts and acknowledges, and may stop between any two of these steps.

**Windows and text.** `LiqWindow`, `Vicinity`, `Rsi` and `SmartNum` model the in-memory aggregations and the number
printer and parser. Prices, volumes and clocks are real numbers there.

## What the proofs show about the code

- No invoice is ever credited too much, in any interleaving, even when the Redis lock is outlived: the row locks and the
  delta against the ledger are enough. The lock only saves work. An invoice is credited exactly what it is owed if the
  search for its deposits finds no others.
- The lock keeps its promise for fifteen seconds from the acquisition: two tasks of one user are past it only if one of
  them has taken longer than that.
- An invoice of at most 0.50 is credited in full by its first check although nothing was paid, because the tolerance
  turns zero into the expected amount; this happens exactly then, and never to CACTUS invoices.
  No invoice that the shop opens today is given away like that, however small, because only a check does it and no check
  concerns MANUAL invoices; a legacy CRYPTOMUS or CRYPTOPAY row can be.
- The search for an invoice's deposits is exact for ids built by the shop. For numeric gateway ids it is not: searching
  invoice 12 also finds the deposits of invoice 123, and then counts them as credited for invoice 12. One id finds
  another's deposits exactly when it matches the beginning of what stands behind the marker, underscores matching
  anything. What is found wrongly is missing from the next credit, so an invoice can be PAID without its deposits; it
  never leads to crediting too much, and a payment is credited in full exactly if nothing is found wrongly.
- PAID is absorbing outside CACTUS when each handler call is one step. In the protocol, where a handler reads and writes
  at different times, a step takes PAID away exactly if it is the late write of an upload, a rejection or an expiry, or
  for CACTUS the application of an answer that is no acceptance. From every unpaid manual invoice a rejection can get
  there; the money and the ledger stay right.
- A CACTUS invoice is PAID exactly if the gateway's last answer was an acceptance.
- The amount on an invoice row agrees with what was credited except after a late upload, which writes back what it had
  read; the row then says too little, never too much.
- A PAID manual invoice whose plan could not be charged is not charged by approving it again, whatever the balance has
  become since. Two approvals that are both read before the first commits get there.
- No user is renewed automatically while the switch in the wallet is off, in any run; each free period is granted once.
- A chart is attached to a signal only if it was drawn for the same symbol, at most three minutes before the cache was
  read.
- Of two refusals of the chart channel the later one decides. It may shorten the mute that the earlier one imposed.
- A key of the alert history may expire between the stamp of a check and its read. So two alerts stamped a little less
  than an hour apart need not keep the cooldown and the growth; what decides is the time from write to read.
- The messenger writes the history before it sends. If it stops in between, the signal is delivered again, suppressed
  by its own entry and acknowledged, and the alert is lost. While entries are remembered, a target that nothing else
  alerts loses a signal exactly like that, and no target is sent the same signal twice.
- The brain drops alerts that only the hourly volume or open interest would raise, unless the event covers some other
  target; cascades and 5-minute volumes above the noise floor always pass.
- The numeric parser reads a decimal without a digit before its separator as a whole number: `,5` is five.
- `docs/FINANCE_SYSTEM.md` describes the invoice payload without the price at creation that
  `src/bot/handlers/shop.py:62-69` writes and `src/services/logic/billing_processor.py:71-97` reads; the model follows
  the code.

## Model

| member | source | states |
|---|---|---|
| Guarantees.DepositsFollowLargestAmount | src/services/logic/billing_processor.py:483-721 | in every run, what an invoice is owed, a function of the largest amount ever applied to it, at most 0.50 above that and never below, lies between its deposits and what the search counts as credited; it is the deposits if the search finds no deposit of another invoice |
| Guarantees.InvoicesAreClean | src/services/logic/billing_processor.py:157-169 | in every run that is so for every shop id, and for any other id that no other id of its owner begins with |
| Guarantees.CreditIgnoresOrderAndRepetition | src/services/logic/billing_processor.py:587-639 | two histories that applied the same amounts in any order and multiplicity owe the same, and credit the same if the search is exact on both |
| Guarantees.CactusCreditsPriceOrNothing | src/services/logic/billing_processor.py:136-152 | a CACTUS invoice is credited at most its price at creation and only if an accepted answer was applied; exactly then, if the search is exact for it |
| Guarantees.CryptopayCreditsAmountOrNothing | src/services/logic/billing_processor.py:126-135 | a CRYPTOPAY invoice above the tolerance is credited at most its amount and only once paid; exactly then, if the search is exact for it |
| Guarantees.CreditWithoutPayment | src/services/logic/billing_processor.py:187-192 | money is credited for an unpaid invoice only if it was checked, is not CACTUS and lies within the tolerance; and always then, if the search is exact for it |
| Guarantees.ChargedAtMostOnce | src/services/logic/billing_processor.py:172-184 | in every run, whatever the ids, at most one direct payment per invoice exists and the query that raises on two rows counts exactly it |
| Guarantees.BalancesAreTheLedger | src/database/crud/billing_service.py:437-462 | in every run, whatever the ids, each balance is the sum of the user's ledger entries and not negative |
| Guarantees.PaidIsFunded | src/services/logic/billing_processor.py:577-639 | in every interleaving the deposits of a PAID invoice and the deposits of others that the search finds for it come to at least its expected amount |
| Guarantees.RunKeepsInv | src/services/logic/billing_processor.py:195-721 | the invariant of books, funding, tasks and renewals survives every run of every kind of step |
| Guarantees.RunKeepsContracts | src/database/crud/billing_service.py:386-434 | no run removes an invoice or changes its owner, provider, amount, intent or deadlines |
| Guarantees.ConfirmationFulfils | src/services/logic/billing_processor.py:402-443 | a full confirmation answers "activated" exactly if the plan was charged before, or if it is no repeated approval and the balance with the invoice's credit covers today's price; charges, balance and status follow |
| Guarantees.RepetitionWritesNothing | src/services/logic/billing_processor.py:313-328 | an approval that finds the invoice paid writes nothing, and charges nothing whatever the balance |
| Guarantees.ShopPurchaseCompletes | src/bot/handlers/shop.py:108-181 | an invoice opened for price minus balance and fully confirmed after any run that kept tariff and balance is activated exactly if it was charged before or this is no repeated approval, and leaves what was gained and overpaid |
| Guarantees.OpenedInvoice | src/bot/handlers/shop.py:403-420 | the shop's invoice asks for price minus balance and remembers plan and price |
| Guarantees.PurchaseMovesMoney | src/database/crud/billing_service.py:565-659 | a balance purchase moves the price from the buyer and the reward to the referrer, in balances and ledger alike, and touches nobody else |
| Guarantees.RenewalsAreSpaced | src/services/workers/bouncer.py:85-143 | in every run the i-th and j-th renewal of a user are at least (j-i) times 30 days minus an hour apart and each adds at least 30 days |
| Guarantees.OnlyExpiredUsersAreDegraded | src/services/workers/bouncer.py:283-296 | a bouncer visit moves a subscription forward, or removes one that is over |
| Guarantees.OthersKeepUsers | src/database/crud/user_service.py:176-218 | no other step takes subscription time from anyone |
| Effects.UpdateEffect | src/services/logic/billing_processor.py:483-721 | a payment check, from the rows before to the rows after: the amount and status on the row, the entries appended, the owner's balance and end, and every field of the answer, which names the problem that fits the state left behind; an unknown id changes nothing |
| Effects.ApprovalEffect | src/services/logic/billing_processor.py:195-480 | the same for an approval, with each reason for which it is refused, and with the answer to one that finds the invoice paid |
| Effects.OwnerlessIsRefused | src/services/logic/billing_processor.py:288-293 | an invoice whose owner is gone is refused by both and nothing changes |
| Effects.DoubleChargeRollsBack | src/services/logic/billing_processor.py:172-184 | two charges of one invoice make the query fail; everything is rolled back and the answer is the unexpected error |
| Effects.GivenUpExactly | src/services/logic/billing_processor.py:100-108 | an answer gives the invoice up exactly if it is one of six words, in any case and between any blanks |
| Effects.PurchaseEffect | src/database/crud/billing_service.py:610-659 | a purchase goes through exactly if the balance covers the price: entries, balances and ends of everybody are pinned down, and otherwise nothing changes |
| Effects.BoughtTimeIsAdded | src/database/crud/billing_service.py:465-479 | the time a user has left grows by exactly the days bought |
| Effects.RewardIsFifteenPercent | src/database/crud/billing_service.py:589-591 | the reward is 15% of the price to the nearest cent |
| Effects.VisitEffect | src/services/workers/bouncer.py:85-143 | a visit renews for 30 days, or removes an end that is reached, or changes nothing, as the user's own fields decide |
| Effects.VisitTakesExactly | src/services/workers/bouncer.py:283-296 | the price is taken if and only if the user wants renewal, is within the last hour and can pay; the subscription is removed if and only if it has ended and was not renewed |
| Effects.BonusEffect | src/database/crud/billing_service.py:93-122 | the community's free period and the trial are each granted exactly if their flag is not set, add exactly their hours, and set it |
| Effects.RegistrationEffect | src/database/crud/user_service.py:18-57 | an existing row stays; a new one starts empty, with a referrer exactly if that one exists and is somebody else |
| Effects.OrderEffect | src/bot/handlers/shop.py:403-420 | an order opens an invoice exactly if the plan has a price the balance does not cover and the id is new |
| Subscriptions.RenewedExactly | src/services/workers/bouncer.py:85-143 | the entry of a renewal is written by a visit to a user who wants it, is within the last hour and can pay, and by no other step |
| Subscriptions.NoRenewalWithoutConsent | src/services/workers/bouncer.py:94-97 | in every run, once a user's switch is off no renewal is booked until the user switches it on again |
| Subscriptions.RenewalsAreBooked | src/services/workers/bouncer.py:99-126 | in every run the renewals whose spacing is proved are as many as the ledger's entries for them |
| Subscriptions.HistoryStep | src/services/workers/bouncer.py:85-143 | each is recorded with its time, the end before and the exact end after |
| Subscriptions.SettingsStep | src/bot/handlers/wallet.py:176-185 | only the user's own switch changes it, only the bonus sets its flag, nothing changes a referrer |
| Subscriptions.GrantedOnce | src/database/crud/billing_service.py:93-122 | in every run each free period is granted at most once per user |
| Subscriptions.ReferrersStayOthers | src/database/crud/user_service.py:18-57 | in every run every referrer is an existing user other than the referred one |
| Subscriptions.BoughtExactly | src/bot/handlers/shop.py:108-181 | buying from the balance costs today's price of the plan, and does nothing without a price or with a short balance |
| Subscriptions.OrderStep | src/bot/handlers/shop.py:403-420 | an order in a run is one for the two providers the shop offers |
| Books.SettleEffect | src/services/logic/billing_processor.py:346-443 | a settlement raises the deposits by what the effective amount exceeds the credit found, charges at most once, changes only the owner and this invoice, and keeps the books sound |
| Books.SettleCounts | src/services/logic/billing_processor.py:346-369 | what the search counts rises to the effective amount and never falls |
| Books.SettlementFundsExactly | src/services/logic/billing_processor.py:346-369 | a settlement funds the invoice in full if and only if the search finds no deposit of another invoice for it, or it was funded before |
| Books.CountedExactly | src/services/logic/billing_processor.py:157-169 | on sound books the search counts the deposits if and only if no deposit of another invoice is found, and never less |
| Books.ChargeRowsAreExact | src/services/logic/billing_processor.py:172-184 | the query for the charge counts exactly the invoice's charges, of which there is at most one |
| Books.ShopIsClean | src/services/logic/billing_processor.py:157-169 | the search is exact for the ids of the shop, whatever other ids the user has |
| Books.PrefixFreeIsClean | src/services/logic/billing_processor.py:157-169 | and for any id that no other id of the same user begins with |
| Books.FulfilEffect | src/services/logic/billing_processor.py:641-710 | the intent is charged exactly if it was not charged before, has a price and can be paid |
| Books.OpenKeepsSound | src/database/crud/billing_service.py:152-228 | a new shop invoice keeps the books sound and starts with nothing booked |
| Safety.FundingStep | src/services/logic/billing_processor.py:329-369 | crediting the delta to the effective amount tracks the largest amount seen, for any amount applied next |
| Safety.ApplyEffect | src/services/logic/billing_processor.py:195-480 | what applying a snapshot or an approval leaves behind for its invoice and for all others |
| Safety.LateWriteKeepsInv | src/bot/handlers/shop.py:840-860 | a handler that writes after any interference keeps the invariant |
| Safety.RenewalKeepsSpacing | src/services/workers/bouncer.py:85-143 | a renewal within the hour before the end keeps the spacing of all renewals |
| Safety.TopIgnoresOrder | src/services/logic/billing_processor.py:587-600 | the largest amount depends on which amounts occur only |
| Ledger.SearchConfusesExactly | src/services/logic/billing_processor.py:157-169 | for ids of any length, the LIKE search of one id finds a deposit of another exactly if the ids agree up to underscores and what is left of a longer one fits the text behind it |
| Ledger.CreditedExactly | src/services/logic/billing_processor.py:157-169 | for ledgers with any number of invoices and ids of any length the search counts the deposits and the strays, so exactly the deposits if and only if there is no stray |
| Ledger.GatewayIdsApartExactly | src/services/logic/billing_processor.py:157-169 | a gateway id is told apart from another one exactly if the other one does not begin with it |
| Ledger.SearchSeparates | src/services/logic/billing_processor.py:352-355 | ids that are apart are told apart, and every id finds its own deposits |
| Ledger.ShopIdsApart | src/bot/handlers/shop.py:72-77 | different ids built by the shop for one user are apart, underscores notwithstanding |
| Ledger.ShopIdApartFromKnown | src/bot/handlers/shop.py:72-77 | shop ids are apart from every other id a user can have, in both directions |
| Ledger.NumericIdsCollide | src/services/logic/billing_processor.py:157-169 | a concrete pair of numeric ids the search confuses |
| Ledger.ChargeRowsAreCharges | src/services/logic/billing_processor.py:172-184 | the equality search for the charge counts exactly the charges of the invoice |
| Ledger.StoredTexts | src/services/logic/billing_processor.py:346-358 | the descriptions as they are stored, letter by letter |
| Text.LikeContains | src/services/logic/billing_processor.py:157-169 | a LIKE pattern between two percent signs holds exactly if the text matches somewhere |
| LockSafety.MutualExclusion | src/core/redis_bus.py:277-304 | in every run at most one task owns a user's live lock |
| LockSafety.OwnershipIsStable | src/core/redis_bus.py:294-304 | an owner loses the lock only by its own release, its crash or the timeout: a late release never removes another's lock |
| LockSafety.OwnsUntilTimeout | src/core/redis_bus.py:277-304 | in every run a task owns the lock for fifteen seconds from its acquisition, for as long as it is at work, whatever the others do |
| LockSafety.OnlyTheTimeoutAdmitsTwo | src/core/redis_bus.py:277-304 | in every run two tasks of one user can be past the lock only if one of them acquired it fifteen seconds ago or earlier |
| LockSafety.LockCanBeOutlived | src/core/redis_bus.py:277-304 | from every reachable state with an unpaid manual invoice, whoever holds the lock, two tasks can get past it at once |
| LockSafety.LockIsOutlivedInARun | src/bot/handlers/shop.py:108-181 | so also in a run that starts with an order in the shop |
| Lifecycle.PaidIsAbsorbing | src/services/logic/billing_processor.py:313-340 | over every sequence of handler calls a PAID invoice outside CACTUS stays PAID |
| Lifecycle.CallKeepsPaid | src/bot/handlers/admin_payments.py:495-507 | each single call does so, for all invoices at once |
| Lifecycle.CactusStatusIsLastAnswer | src/services/logic/billing_processor.py:136-152 | a check leaves a CACTUS invoice PAID exactly if the gateway accepted |
| Lifecycle.OnlyAnswersMoveCactus | src/services/workers/payment_worker.py:54-117 | no call but an answered check of it pays a CACTUS invoice, or changes a PAID one at all |
| Lifecycle.CactusIsPaidExactly | src/services/logic/billing_processor.py:577-600 | over every sequence of calls a CACTUS invoice is PAID exactly if the last answer about it was an acceptance, or it was PAID and nothing was answered |
| Lifecycle.RecordedIsCredited | src/services/logic/billing_processor.py:587-639 | over every sequence of handler calls the amount on the row of an invoice outside CACTUS, above the tolerance, lies between its deposits and what the search counts, up to the tolerance; it is the deposits if the search is exact for it |
| Lifecycle.CheckCreditsWhatIsReported | src/services/logic/billing_processor.py:111-154 | a check tops the deposits up to what the gateway's answer is worth, less the deposits of others that the search finds, and each of the four statuses results exactly when it should |
| Lifecycle.SnapshotExactly | src/services/logic/billing_processor.py:111-154 | what is taken from each gateway's answer: status, amount and native amount, from the answer and the invoice alone |
| Lifecycle.ReviewCycle | src/bot/handlers/shop.py:814-890 | an upload stores the screenshot and keeps further uploads and the worker away until an admin decides; a rejection, with its reason, lets the owner upload once more |
| Lifecycle.ReviewIsRefused | src/bot/handlers/admin_payments.py:474-550 | uploads are accepted exactly from pending or partly paid manual invoices, and nothing that is paid is rejected |
| PaymentWorker.WorkerExpiresAtDeadline | src/services/workers/payment_worker.py:51-117 | the worker decides to expire an open invoice from its deadline on and never before |
| PaymentWorker.RescheduledExactly | src/services/workers/payment_worker.py:74-119 | an open invoice that is not over is rescheduled: after 30 seconds in its first 15 minutes, then after 3 minutes, a manual one after half an hour; others are not |
| PaymentWorker.PassesLookExactly | src/services/workers/payment_worker.py:208-241 | over any passes with any delays, the next look at an open invoice is exactly in the first pass that begins when that time is over, unless the timetable is cleared before |
| PaymentWorker.PassesLookInTime | src/services/workers/payment_worker.py:208-241 | in any case a pass looks unless the last look was less than that time ago |
| PaymentWorker.LooksAtOnce | src/services/workers/payment_worker.py:228-236 | the first pass that finds an invoice open looks at it, and so does the first one after the timetable was cleared |
| PaymentWorker.LooksAreFrequent | src/services/workers/payment_worker.py:208-241 | so with passes at most a gap apart, looks at an open invoice are at most that time and two gaps apart |
| PaymentWorker.WorkerExpiresInTime | src/services/workers/payment_worker.py:51-119 | no pass expires an invoice before its deadline; one that begins three minutes after it, thirty for manual ones, has expired it at the latest, unless the invoice was no longer open |
| StatusRuns.UnpaidExactlyBy | src/bot/handlers/admin_payments.py:495-507 | at the end of any run a step leaves a PAID invoice PAID exactly if it is no late upload, rejection or expiry of it and, for CACTUS, no application of a refusal |
| StatusRuns.PaidUntilDisturbed | src/services/workers/payment_worker.py:54-117 | over any run an invoice once PAID is PAID at the end, or such a step took PAID from it in between |
| StatusRuns.StepKeepsRecordExactly | src/bot/handlers/shop.py:840-860 | a step keeps an invoice row in agreement with its deposits exactly if it is no upload that had read less than was deposited by then |
| StatusRuns.RecordedUnlessStale | src/services/logic/billing_processor.py:587-639 | in every run the amount on the row of an invoice outside CACTUS, above the tolerance, lies between its deposits and what the search counts, and is the deposits if the search is exact for it, unless such an upload came in between |
| StatusRuns.RowNeverExceedsCredit | src/services/logic/billing_processor.py:587-639 | in every run the row never says more than the search counts, and never more than the deposits if the search is exact for it |
| Interleaving.RejectionCanUnpay | src/bot/handlers/admin_payments.py:474-550 | from every reachable state with an unpaid manual invoice, whoever holds the lock, a rejection read before and written after an approval leaves it paid for and pending |
| Interleaving.InterleavingCanUnpay | src/bot/handlers/shop.py:108-181 | so also in a run that starts with an order in the shop |
| Interleaving.SecondApprovalDoesNotFulfil | src/services/logic/billing_processor.py:313-328 | a run from the shop with two approvals read before PAID, the first short of balance, a top-up, and the second leaving the plan uncharged |
| Interleaving.SmallInvoiceIsGivenAway | src/services/logic/billing_processor.py:187-192 | the first check of any legacy CRYPTOMUS invoice of 0.50 or less credits it in full |
| Interleaving.PaidWithoutDeposits | src/services/logic/billing_processor.py:157-169 | a run with two numeric ids after which an invoice that was paid in full is PAID and has no deposits at all, because the other one was paid before |
| Interleaving.CheckIsARun | src/services/workers/payment_worker.py:138-138 | in the protocol, a check that nobody disturbs does exactly what it does as one step |
| Interleaving.ConfirmIsARun | src/bot/handlers/admin_payments.py:380-440 | the same for an approval of an invoice that is not paid |
| Interleaving.PaidIsNotApproved | src/bot/handlers/admin_payments.py:402-406 | an approval that reads the invoice paid is not begun |
| Interleaving.UploadIsARun | src/bot/handlers/shop.py:814-890 | the same for an upload |
| Interleaving.RejectIsARun | src/bot/handlers/admin_payments.py:474-550 | the same for a rejection |
| Interleaving.ExpiryIsARun | src/services/workers/payment_worker.py:74-117 | the same for an expiry |
| BillingStore.Store.ProcessPaymentUpdate | src/services/logic/billing_processor.py:483-721 | the statement sequence has exactly the effect and answer of `ApplyUpdate`; on sound books it checks the row, books what is missing, and answers what is then stored and what the problem is |
| BillingStore.Store.ProcessManualApproval | src/services/logic/billing_processor.py:195-480 | the same for `ApplyApproval`, with all error answers; sound books stay sound |
| BillingStore.Store.AdjustUserBalance | src/database/crud/billing_service.py:437-462 | balance and ledger move together, or neither |
| BillingStore.Store.ExtendUserSubscription | src/database/crud/billing_service.py:465-479 | the new end is the later of end and now plus the time asked for |
| BillingStore.Store.ActivateSubscriptionLogic | src/database/crud/billing_service.py:565-607 | extension and referral reward |
| BillingStore.Store.ChargeAndActivateSubscription | src/database/crud/billing_service.py:610-659 | charge, extend and reward, or nothing |
| BillingStore.Store.PurchaseSubscription | src/database/crud/billing_service.py:661-692 | a purchase from the balance, exactly if it covers the price; sound books stay sound and no invoice is credited or charged |
| BillingStore.Store.CreateInvoice | src/database/crud/billing_service.py:152-228 | a new pending row for price minus balance, exactly if there is such a difference and the id is new |
| BillingStore.Store.ApplyCommunityBonus | src/database/crud/billing_service.py:93-122 | the bonus is granted exactly once per user and adds exactly its hours |
| BillingStore.Store.SubmitScreenshot | src/bot/handlers/shop.py:814-890 | accepted exactly for the owner's open manual invoice, which then holds the screenshot and waits for an admin |
| BillingStore.Store.RejectPayment | src/bot/handlers/admin_payments.py:474-550 | resets exactly unpaid manual invoices |
| BillingStore.Store.VisitUser | src/services/workers/bouncer.py:257-309 | one user of a bouncer pass: renewed exactly if the user's fields say so, else removed exactly if the end is reached |
| BillingStore.Store.GetOrCreateUser | src/database/crud/user_service.py:18-57 | registration with a validated referrer |
| BillingStore.Store.ToggleAutoRenewal | src/bot/handlers/wallet.py:176-185 | the switch is reversed |
| BillingStore.FindActiveCactusInvoice | src/database/crud/billing_service.py:248-343 | of all rows, newest first, the loop finds the newest reusable one among the user's last twenty pending CACTUS invoices, exactly if there is one |
| BillingStore.PaymentManager.ProcessInvoice | src/services/workers/payment_worker.py:51-119 | the worker's branches expire, reschedule or forget as `WorkerDecision` says |
| BillingStore.PaymentManager.ForgetSettled | src/services/workers/payment_worker.py:137-205 | which answers of the payment check drop an invoice from the timetable |
| BillingStore.LockTable.AcquireLock | src/core/redis_bus.py:277-292 | set-if-absent with a lifetime: the lock was free, and is held until exactly its end |
| BillingStore.LockTable.ReleaseLock | src/core/redis_bus.py:294-304 | compare-and-delete: no lock but the one of this token is lost |
| Pipeline.NothingIsLost | src/services/workers/chart_worker.py:212-252 | in every run with crashes and lost replies an untrimmed raw signal is undelivered, pending or acknowledged, an acknowledged one has reached the ready stream unchanged but for candles and chart, and nothing else is there |
| Pipeline.PublishedChart | src/services/workers/chart_worker.py:212-252 | what is published has no candles and the chart remembered for its symbol or else drawn in this step; it has none exactly if it must do without or none could be had |
| Pipeline.ProcessedExactly | src/services/workers/chart_worker.py:164-202 | a chart is drawn exactly if one is due and none is remembered, remembered for three minutes, and the signal acknowledged exactly if its copy was stored and the reply arrives |
| Pipeline.ChartsAreOfTheirSymbol | src/services/workers/chart_worker.py:164-252 | in every run the chart of a ready entry was sent to the channel for a signal of the same symbol, in its own attempt or less than three minutes before; an entry without one had to do without, or none could be drawn |
| Pipeline.EmptyReadMeansNothingLeft | src/core/redis_bus.py:151-212 | a read that brings nothing leaves nothing undelivered; and only fresh deliveries of others pending, if fewer than ten pending entries have lost their payload |
| Pipeline.GetSignalsKeepsAccount | src/core/redis_bus.py:151-212 | a read loses no entry and returns what the stream holds, whichever of its three commands answered |
| Pipeline.ReadRespectsOwners | src/core/redis_bus.py:151-212 | a read returns at most ten entries, all the reader's own by then; what others hold for less than half a minute stays theirs |
| Pipeline.StepsDo | src/core/redis_bus.py:151-212 | arrivals are appended, a crash loses the batch in hand and nothing else |
| Pipeline.ParseStreamEntries | src/core/redis_bus.py:37-55 | the loop keeps exactly the entries with a payload, in order |
| TokenBucket.TieredRate | src/services/workers/chart_worker.py:44-72 | after any run and over any window of T seconds at most 40, 36 without cascades, 26 ordinary, plus 0.36 T grants |
| TokenBucket.TokensStayInBounds | src/services/workers/chart_worker.py:151-154 | tokens stay between 0 and 40 through refills, grants and mute resets |
| TokenBucket.RateBoundsAreTight | src/services/workers/chart_worker.py:55-72 | the three bounds are reached |
| TokenBucket.PacedCascadesAreServed | src/services/workers/chart_worker.py:55-72 | cascades that come no faster than tokens grow back are all granted, whatever the other classes ask for in between |
| TokenBucket.RefusalMutes | src/services/workers/chart_worker.py:151-154 | after a refusal nothing is granted for the time it names and two seconds more |
| TokenBucket.GrantedAfterMute | src/services/workers/chart_worker.py:44-72 | and from then on exactly what enough tokens have grown back for |
| TokenBucket.LaterRefusalDecides | src/services/workers/chart_worker.py:151-154 | a later refusal shortens the mute exactly if its own time ends earlier |
| TokenBucket.Limiter.ShouldConsumeToken | src/services/workers/chart_worker.py:55-72 | a request is granted exactly outside a mute period with enough tokens for its class; each refusal names its reason |
| TokenBucket.Limiter.EnterMute | src/services/workers/chart_worker.py:151-154 | a refusal empties the bucket and mutes |
| SymbolLocks.LocksSurviveCollection | src/services/workers/chart_worker.py:74-113 | in every interleaving references count the reservers, who all hold the stored lock, and at most one task of a symbol renders |
| SymbolLocks.CollectedExactly | src/services/workers/chart_worker.py:93-113 | a pass never fails and collects a lock exactly if nobody reserved it and it was unused for four hours |
| SymbolLocks.SymbolsDoNotShareLocks | src/services/workers/chart_worker.py:164-202 | two tasks hold the same lock object exactly if they work on the same symbol |
| SymbolLocks.TaskMoves | src/services/workers/chart_worker.py:164-202 | what acquiring, giving up, leaving and finishing do to the task, the lock and the time of last use |
| SymbolLocks.TaskStarts | src/services/workers/chart_worker.py:74-82 | a task starts waiting with the stored lock, or with one no other symbol has |
| SymbolLocks.HeldIsNeverCollected | src/services/workers/chart_worker.py:93-113 | a lock that is held is never collected, whatever the counts say |
| SymbolLocks.Locks.ReserveSymbolLock | src/services/workers/chart_worker.py:74-82 | the stored lock or a new one, counted |
| SymbolLocks.Locks.ReleaseSymbolLock | src/services/workers/chart_worker.py:84-91 | the count goes down and disappears at zero |
| SymbolLocks.Locks.CleanupSymbolLocks | src/services/workers/chart_worker.py:93-113 | removes the expired symbols from all three tables |
| AntiSpam.LaterAlertsAreLaterAndLarger | src/services/workers/messenger_worker.py:192-281 | over any run, while each alert of a key is written and read by the next one less than an hour later, the k-th later one is stamped 180 k seconds later and 1.5^k times larger, whatever fails for other keys |
| AntiSpam.CopiesAlertOnce | src/services/logic/trigger_engine.py:4-15 | so copies of a positive signal alert once in such a stretch |
| AntiSpam.NextAlertsExactly | src/services/workers/messenger_worker.py:260-281 | after an alert that was written the next one of the key is sent exactly if it cannot read it, or three minutes have passed and the volume has grown by half; other keys are not affected |
| AntiSpam.CopyAlertsAgainExactlyWhen | src/services/logic/trigger_engine.py:4-15 | a copy alerts again exactly if its read fails or comes after expiry, or comes after the cooldown with a volume that is not positive |
| AntiSpam.StampsDoNotDecide | src/services/workers/messenger_worker.py:192-281 | a copy stamped less than an hour after the first alert that is sent again, because the key expired before it was read |
| AntiSpam.KeysAreIndependent | src/services/workers/messenger_worker.py:74-75 | a key's alerts depend on its own checks only |
| AntiSpam.History.CheckAlert | src/services/workers/messenger_worker.py:260-281 | read, compare and rewrite of the history key |
| Messenger.AcknowledgedIsAnswered | src/services/workers/messenger_worker.py:554-671 | in every run with crashes, failures and lost replies an acknowledged signal had a finished pass, in which every target it was due to was sent the alert, or may not be sent to, or was suppressed by an earlier alert still remembered that came too shortly before or was too large |
| Messenger.CopiesAlertOnceInARun | src/services/workers/messenger_worker.py:260-281 | while the alerts of a key are remembered, one of the copies of a positive signal alerts at most, however often it is delivered and whatever comes in between |
| Messenger.LostExactlyIfInterrupted | src/services/workers/messenger_worker.py:538-671 | of the copies of one signal within the hour the first visit alerts and no other; the target is sent the alert exactly if the pass of that visit sent it, which every finished pass does for a target that may be sent to |
| Messenger.GivenUpIsNeverSent | src/services/workers/messenger_worker.py:605-630 | an alert that its pass did not send is never sent later |
| Messenger.SentOnce | src/services/workers/messenger_worker.py:605-630 | in every run an alert that is sent leaves the queue and was not sent before |
| Messenger.PassesFollow | src/services/workers/messenger_worker.py:554-671 | what sending, finishing, failing and restarting do to the batch in hand; the signal is acknowledged exactly at the end of its pass |
| Messenger.StreamSteps | src/core/redis_bus.py:151-212 | its stream moves as the pipeline's does |
| Messenger.AlertIsLost | src/services/workers/messenger_worker.py:277-281 | a run that stops after the history write and ends with the signal acknowledged and no alert sent |
| Messenger.RunKeepsInv | src/services/workers/messenger_worker.py:538-671 | queue, log, history and acknowledgements fit together after every run |
| Prefilter.BrainPassesExactlyCoveredEvents | src/services/logic/analyzer.py:281-314 | the brain passes an event exactly if some enabled target's 5-minute or cascade condition holds, the former above the noise floor |
| Prefilter.DroppedAlerts | src/services/logic/trigger_engine.py:42-74 | what kind of alert the early exit can lose, and by how much |
| Prefilter.AlertedExactly | src/services/workers/messenger_worker.py:181-256 | a target is alerted with a kind exactly if it wants the side, its RSI range allows it, there is a market capitalisation if it measures by that, the kind's own condition holds and is switched on, and no stronger one's does |
| Prefilter.BrainKindExactly | src/services/logic/analyzer.py:281-314 | which kind the brain gives an event it passes on |
| Prefilter.CoveredTriggersGetThrough | src/services/workers/messenger_worker.py:196-255 | cascade alerts and 5-minute volumes above the floor are never lost |
| Prefilter.StrongestKindWins | src/services/logic/trigger_engine.py:42-74 | an alert has the strongest kind that holds and is switched on, and there is none exactly if the RSI filter or every kind says no |
| Prefilter.HourlyTriggerIsDropped | src/services/logic/analyzer.py:286-290 | a concrete hourly alert that is lost |
| Prefilter.MinThresholdIsLeast | src/services/logic/analyzer.py:108-134 | a volume meets the cached minimum exactly if it meets some enabled target's threshold |
| Prefilter.PercentModeIsItsFloors | src/services/workers/messenger_worker.py:208-230 | in percent mode the shared rules hold exactly if the percentage and dollar floors do |
| Prefilter.Brain.UpdateCache | src/services/logic/analyzer.py:108-134 | the loop computes both minima over the enabled targets |
| Prefilter.Brain.ProcessLiquidation | src/services/logic/analyzer.py:270-314 | the gate followed by the rules |
| LiqWindow.FiguresAreOfTheWholeLog | src/main.py:148-149 | over any run of arrivals and collections after a warm start from ascending rows, the figures are the plain filter over the loaded rows and everything that ever arrived |
| LiqWindow.ScanIsFilter | src/services/aggregators/liq_aggregator.py:23-51 | for a side in time order the early exit equals the filter |
| LiqWindow.CleanupIsInvisible | src/services/aggregators/liq_aggregator.py:113-128 | collecting changes no later answer, ordered or not |
| LiqWindow.WindowsNest | src/services/aggregators/liq_aggregator.py:35-48 | cascade, 5-minute and hourly sums nest |
| LiqWindow.ScanIsFilterExactlyWhenOrdered | src/services/aggregators/liq_aggregator.py:23-51 | for positive values the figures are those of the filter at every moment exactly if the side stands in time order |
| LiqWindow.LoadedIsOrdered | src/database/crud/liq_service.py:73-84 | rows that come back ascending leave every symbol and side in time order |
| LiqWindow.RowsAreConverted | src/services/aggregators/liq_aggregator.py:88-100 | each row becomes an event of its symbol with its time and value, a buy order of the side LONG and any other of the side SHORT |
| LiqWindow.EventsAreRows | src/services/aggregators/liq_aggregator.py:88-100 | and there are no other events |
| LiqWindow.Aggregator.LoadHistoricalData | src/services/aggregators/liq_aggregator.py:88-100 | the loop appends each row to its symbol, with the side of the position |
| LiqWindow.Aggregator.GetMetrics | src/services/aggregators/liq_aggregator.py:23-51 | the backwards loop computes `Scan` |
| LiqWindow.Aggregator.Cleanup | src/services/aggregators/liq_aggregator.py:113-128 | every symbol keeps the events from the first fresh one on, and symbols without events go |
| Vicinity.LookupsSucceedInEveryRun | src/services/aggregators/market_aggregator.py:174-181 | with steps at most 7 s apart, right after an update every lookup of 1 to 17 minutes with enough samples is within 45 s |
| Vicinity.LookupSucceeds | src/services/aggregators/market_aggregator.py:64-112 | with gaps of at most 67 s and a newest sample under a minute old, lookups succeed |
| Vicinity.LookupExactly | src/services/aggregators/market_aggregator.py:64-112 | what is found: with too few samples the oldest, if two minutes old; else the one at the index, if within 20 seconds; else the first of the nearest neighbours, if within 45 |
| Vicinity.SeededExactly | src/services/aggregators/market_aggregator.py:114-157 | samples are seeded exactly if there are prices and fewer than two samples: one for each of the last sixty prices, a minute apart, ending with the present minute |
| Vicinity.AppendDropsTheOldest | src/services/aggregators/market_aggregator.py:159-181 | the history keeps the newest 61 samples |
| Vicinity.SamplesAreAMinuteApart | src/services/aggregators/market_aggregator.py:114-181 | whatever the clock does, samples are a minute apart and an update leaves the newest under a minute old |
| Vicinity.SamplesStaySpaced | src/services/aggregators/market_aggregator.py:114-181 | with steps at most 7 s apart gaps are at most 67 s |
| Vicinity.GetWindowRecord | src/services/aggregators/market_aggregator.py:64-112 | the loop with its skipped indices finds the first nearest neighbour |
| Vicinity.MarketAggregator.Update | src/services/aggregators/market_aggregator.py:159-181 | snapshot and minute history of one symbol, the others untouched |
| Vicinity.MarketAggregator.SeedHistory | src/services/aggregators/market_aggregator.py:114-157 | closing prices stamped with minute starts and seeded with open interest, unless there are samples already |
| Vicinity.OpenInterestAt | src/services/aggregators/market_aggregator.py:144-155 | the backwards search for the last point not after a time, with its fallback for a zero |
| Vicinity.SeededInterestIsLatest | src/services/aggregators/market_aggregator.py:144-155 | for points in time order with values other than zero it is the most recent point, or the first |
| Rsi.RsiIsBounded | src/services/indicators/rsi.py:8-35 | the index lies in [0, 100]; for periods over 1 it is 100 exactly without losses and 0 exactly with losses but no gains in the whole series |
| Rsi.WilderIsBetween | src/services/indicators/rsi.py:23-28 | the smoothed average lies between any bounds on the moves, so steady moves average to themselves |
| Rsi.WilderForgets | src/services/indicators/rsi.py:23-28 | each further move of the same size takes the distance of the average from it down to the share (period - 1) / period |
| Rsi.MeanOfTheFirst | src/services/indicators/rsi.py:18-22 | the first average is the mean of the first moves |
| Rsi.RsiIgnoresScale | src/services/indicators/rsi.py:8-35 | scaling all prices by a positive factor changes nothing |
| Rsi.RsiMirrors | src/services/indicators/rsi.py:30-34 | mirroring all moves mirrors the index exactly unless both averages vanish |
| Rsi.CalculateRsi | src/services/indicators/rsi.py:9-35 | the smoothing loop computes Wilder's averages, and the index is rounded to two places |
| Rsi.RoundedStaysInBounds | src/services/indicators/rsi.py:33-35 | rounding keeps the index in [0, 100] and moves it by half a hundredth at most |
| SmartNum.ParseUndoesFormat | src/utils.py:45-93 | parsing a printed number gives that number rounded, through groups, comma, sign and percent |
| SmartNum.FormatIsCanonical | src/utils.py:45-67 | printing what was read changes nothing, and numbers print alike exactly if they round alike |
| SmartNum.RoundIsNearest | src/utils.py:50-51 | rounding yields exactly the nearest unit of the last place, the even one of two |
| SmartNum.GroupsHaveThreeDigits | src/utils.py:54-57 | counted from the right exactly every fourth character is a separator |
| SmartNum.ParseRefusesExactly | src/utils.py:70-93 | the parser refuses a text exactly if it holds no digit |
| SmartNum.DecimalIsReadAsMeantExactly | src/utils.py:81-93 | a typed decimal is read as meant exactly if a digit precedes the separator or only zeros follow it |
| SmartNum.ParseNumericInput | src/utils.py:70-93 | the loop keeps the digits and the last separator |

## Left out

- Guarantees.CreditWithoutPayment: amounts are whole cents, so floating-point noise below a cent is not modelled.
- Guarantees.PurchaseMovesMoney: the referral reward is any amount within half a cent of 15%, because the direction in which a tie rounds depends on the float.
- Guarantees.RenewalsAreSpaced: administrators who overwrite subscription ends are not part of the runs.
- PaymentWorker.WorkerExpiresInTime: reminders are not modelled, only expiry and polling; a look that ends in an exception counts as no look.
- StatusRuns.UnpaidExactlyBy: supposes, like all results on runs, that a transaction works on the row as it is when it is locked. `src/database/crud/billing_service.py:370-383` locks without refreshing a row that the session has loaded before, so once the lock is outlived an application can work on an older invoice row.
- StatusRuns.RecordedUnlessStale: supposes the same.
- Vicinity.MarketAggregator.SeedHistory: the sorting of the open interest points is left to the caller.
- Vicinity.MarketAggregator.Update: candles and the hourly prices for the RSI are not modelled.
- BillingStore.Store.VisitUser: expiry warnings and notices of failed renewals are not modelled. A visit is one step with a delay in it, whereas the commit of a warning releases the row lock before a renewal that follows in the same visit; that can happen to a trial with 45 to 60 minutes left.
- BillingStore.PaymentManager.ProcessInvoice: the reminder of an abandoned invoice is not modelled.
- BillingStore.FindActiveCactusInvoice: the order in which the database returns the rows is a precondition.
- SmartNum.ParseUndoesFormat: a float is its exact real value, and places are not negative.
- SmartNum.ParseNumericInput: digits outside ASCII, which Python's `isdigit` accepts, are dropped.
- SymbolLocks.LocksSurviveCollection: a task cancelled while it waits for the guard inside its release, which happens at shutdown only, is not modelled.
- AntiSpam.LaterAlertsAreLaterAndLarger: holds for one messenger whose clock does not go back.
- Messenger.AcknowledgedIsAnswered: a visit is a target whose triggers hold; targets whose check fails with an exception are passed over by the code and are no visits. What Telegram does with an alert is not modelled.
- The JSON text of invoice payloads: the model starts from the parsed action, days and price, and a field that does not parse is `None`.
- The unexpected-error answer carries default amounts instead of the last ones read.
- Identity of loaded rows: tables are maps of values inside a class, so two handlers of one session never share a row object.
- The shop reuses a matching CACTUS invoice when it finds one; runs may open a second one instead.
- Provider HTTP calls, request signatures and lower-case provider names: a provider is an arbitrary source of answers.
- Session errors and retries: a transaction commits or has no effect.
- Notifications, expiry warnings, audit rows, keyboards, localisation and rendering: no invariant of their own.
- Pipeline.ChartsAreOfTheirSymbol: one attempt at a chart is one step, so two renderers do not change the cache within it.
- Concurrent brain tasks on one history key, CVD buckets, supply, dashboards and statistics.
- The RSI cache, whose key does not identify the series once fifty bars are held.
