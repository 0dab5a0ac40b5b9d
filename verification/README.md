# Billing, forecasting, workflow and calendar: a verified model

This project models the parts of a multi-tenant planning platform whose correctness rests on
arguments that span many functions, and proves them with Dafny 4.11.

- **Prepaid credits.** Wallets, reservations and an append-only ledger, with purchases, refunds,
  disputes and AI charging around them. `Bank`, `Purchases`, `Refunds`, `Disputes`, `Charging` and
  `Pricing` give each committed call as a function on tables. `Persistence`, `WalletCalls`,
  `PurchaseCalls`, `RefundCalls`, `DisputeCalls` and `ChargeCalls` give the services themselves,
  statement by statement on a database object, proved to do what those functions say.
  `WalletEffects`, `PurchaseEffects`, `RefundEffects` and `ChargeEffects` say what each does on columns
  and rates, `BillingSteps` and `LockedEffects` carry that to runs and interleavings.
  `BillingRuns`, `BillingTheorems` and `WalletGuards` take any sequence of calls, `BillingHistories` what
  such a run has done, and `BillingWitnesses` runs that end badly. `LockedTransactions` and `LockedLaw`
  take lock, read, write and commit apart and let any number of transactions interleave.
- **Approval workflow.** `Workflow` makes every await of a call a step of its own, with any number
  of callers in flight on what they read earlier; `WorkflowCalls` is the service, `WorkflowRights` says
  who may do what, `WorkflowRuns` has the stale writes and two runs.
- **Numerical kernel.** `LinearSolver` (elimination in place on arrays), `RidgeRegression`,
  `Sarima`, `SarimaFit`, `SarimaForecast`, `HoltWinters` and `TrendLine`, over exact reals.
- **Usage guard.** `UsageGuard`: two counters per running query.
- **Fiscal calendar.** `FiscalCalendar`: the API's buckets and the web helpers on ECMAScript dates;
  `TimeBuckets`: the bucket rows by key.

Amounts of money are exact reals where the program computes and integers of millionths where it
stores: a `Decimal(18, 6)` column rounds half away from zero on every write. Row ids are positions
in their tables. New wallets start at zero, new reservations are ACTIVE, a tenant has one wallet.
The answers of Stripe, of the access policy, of user lookups and of clocks are parameters.

`dafny verify dfyconfig.toml` checks every file.

## Where the code and its promises part

- `wallet.balance === SUM(ledger.amount)` (wallet.service.ts:44) fails once an amount with more than
  six decimals is rounded in two columns that then differ. `LedgerLaw` says exactly when a posting
  or a settled charge breaks it, `LawFailsOnHalfUnit` shows one, and the balance is always the sum
  of the amounts and of per-entry drifts of at most one millionth. With at most six decimals it holds
  over every run and every interleaving.
- `margin = charge - cost` of a usage log row can be off by one unit for the same reason;
  `Charging.MarginExactly` says when, and `BillingWitnesses.MarginCanBeOff` is a settled call.
- "Only PENDING purchases can be cancelled" does not survive a race with a completion, which the
  cancellation then overwrites; the credits stay granted once. `OverwrittenExactly` says when a run
  ends so and `CancelledWithCreditsGranted` is one.
- A proved payment does not always give credits. Where the wallet is overdrawn by more than the
  purchase's amount, the completion is refused as an overdraft and the purchase stays PENDING (run:
  `PaidAndNotCredited`). Where an asynchronous payment settles after the sweep has timed the purchase
  out, or after a cancellation or rejection, it is refused for good (run: `PaidTooLate`, with
  `LostForGood`). `PaidPurchaseIsCreditedExactly` and, over runs, `CreditedExactly` say when it does.
- REFUNDED does not mean paid back: where a process died after creating a PENDING refund, the refund
  counts towards the cap and has not been paid. It means so if and only if none is PENDING, which can
  be seen before the call that turns the purchase REFUNDED (`TurningRefundedPaysBackExactly`);
  `RefundedWithHalfPaidBack` is a run.
- The cap is kept by the refund rows, not by the card payouts. A refund books its amount and asks the
  network for the nearest cents, or for all that is left of the charge where that is zero; and it books
  nothing where the wallet is CLOSED, the network's answer gets lost or the process dies.
  `PaysItsBookingExactly` says when a call pays what it books and `BooksFollowCardExactly` when a run
  does. Without an amount left out, what is booked is paid at most twice (`CardPayoutsCapped`). Runs:
  0.004 credits pay out all of a purchase (`FractionPaysAll`), half cents pay it twice if the network
  lets them (`HalfCentsRun`), so do refunds for a CLOSED wallet (`PaidOutTwice`), and after a lost
  answer all of it can be refunded again (`PaidAndFailed`). A network that keeps to the charge pays no more than that (`ChargeCapsPayouts`).
- A resubmitted workflow keeps its action log, so a first step that is one user's can never be approved
  again once it was (`StuckExactly`, `ResubmissionIsStuckExactly`, with the run `ResubmittedRunIsStuck`).
- An approval's last write looks neither at the status nor at the step again, so it turns a workflow
  that has been rejected meanwhile APPROVED (`TurnsApprovedExactly`, over runs
  `DecidedEndsApprovedExactly`, with the run `RejectedTurnsApproved`).
- The ridge penalty does not keep the solver from refusing: on a column of magnitude h beside the
  unpenalised intercept a penalty below 1e-12 times h is not enough, and the coefficients are then zero
  (`OneObservationRefused`).
- A bucket's key has the calendar year, quarter or week of its date and its window the fiscal year,
  quarter or the week from Monday, so the first date to ask fixes the window for dates of other periods
  (`AlwaysHeldExactly`).
- A fiscal year that starts in one of the years 0 to 99 does not hold its dates, because the date
  constructors read such a year as one of the 1900s (sections 21.4.2.1 and 21.4.3.4 of ECMA-262).

## Model

| member | source | states |
|---|---|---|
| `LockedLaw.LawUnderInterleaving` | apps/api/src/modules/ai-billing/wallet.service.ts:44 | for every interleaving of lock, read, write and commit steps whose amounts have at most six decimals: committed balance = sum of the ledger amounts, and = totalPurchased - totalConsumed + totalAdjusted + signed refunds, per wallet |
| `LockedTransactions.InterleavingIsSerial` | apps/api/src/modules/ai-billing/wallet.service.ts:88-95 | however the steps interleave, the committed tables are those of the same transactions and statements done one after the other in commit order: no lost update, no dirty read |
| `LockedTransactions.CommitIsAtomic` | apps/api/src/modules/ai-billing/wallet.service.ts:146-188 | what a transaction has drafted under its locks, statement by statement, is exactly the job done in one step on the tables as they are at the commit |
| `LockedEffects.JobExactly` | apps/api/src/modules/ai-billing/wallet.service.ts:88-205 | and that job has its call's effect on the columns of the committed rows, or is refused exactly as the call is and has none |
| `LockedTransactions.RefusalIsAtomic` | apps/api/src/modules/ai-billing/wallet.service.ts:155-159 | a transaction that stops at a row status or at the ledger stops where the job done at once would be refused or change nothing |
| `LockedTransactions.CopyStable` | apps/api/src/modules/ai-billing/wallet.service.ts:383-403 | what was read under a lock stays what is committed as long as the locked rows are untouched |
| `LockedTransactions.InstallTouchesOwnRows` | apps/api/src/modules/ai-billing/wallet.service.ts:348-355 | a commit changes no row its transaction has not locked, and drops no wallet |
| `LockedTransactions.FineRunKeeps` | apps/api/src/modules/ai-billing/wallet.service.ts:304-403 | lock table, private copies, serial state and books agree after any sequence of steps |
| `LockedTransactions.BooksUnderInterleaving` | apps/api/src/modules/ai-billing/wallet.service.ts:36-48 | under every interleaving: unbroken before/after chain ending on the balance, balance = amounts + rounding drifts, reserved column = active holds, purchases booked |
| `LockedTransactions.WaitsAreShort` | apps/api/src/modules/ai-billing/wallet.service.ts:154-159 | reservation or purchase row first, one wallet last: of three transactions each waiting for the next, the last does not wait |
| `LockedTransactions.NoDeadlock` | apps/api/src/modules/ai-billing/purchase.service.ts:300-322 | no cycle of in-flight transactions of any length waits for one another |
| `LockedLaw.TwoCreditsRace` | apps/api/src/modules/ai-billing/wallet.service.ts:383-391 | two first-touch credits race: one commits, the other is rolled back by the unique wallet row, and one entry is left |
| `Money.AdditiveExactly` | apps/api/prisma/schema.prisma:5256-5261 | adding to a stored amount and storing equals storing and adding, exactly unless the amount is half a unit off and the result is on the other side of zero |
| `Money.AdditiveWithinOne` | apps/api/prisma/schema.prisma:5256-5261 | the two differ by at most one unit, never against the wallet on a debit |
| `WalletEffects.StoredExactly` | apps/api/prisma/schema.prisma:5256-5261 | a column keeps the amount nearest to what is written, and of two the one further from zero |
| `LedgerLaw.BalanceIsAmountsAndDrift` | apps/api/src/modules/ai-billing/wallet.service.ts:44 | in every sound state the balance is the amounts plus the drift of each entry; the claimed law holds exactly when the drifts cancel |
| `LedgerLaw.PostKeepsLawExactly` | apps/api/src/modules/ai-billing/wallet.service.ts:304-355 | a posting keeps balance = sum of amounts exactly unless its amount is half a unit off and leaves the balance on the other side of zero |
| `LedgerLaw.FinalizeKeepsLawExactly` | apps/api/src/modules/ai-billing/wallet.service.ts:146-188 | settling a hold keeps the law exactly unless the charge is half a unit off and smaller than the balance |
| `LedgerLaw.LawFailsOnHalfUnit` | apps/api/src/modules/ai-billing/wallet.service.ts:44 | a credit of 1 and a charge of half a millionth leave balance 1 and a ledger sum of 0.999999 |
| `LedgerLaw.AdjustedFollowsExactly` | apps/api/src/modules/ai-billing/wallet.service.ts:366-381 | totalAdjusted follows its entries under the same condition on its own column |
| `LedgerLaw.LifetimeTotalsReconcile` | apps/api/src/modules/ai-billing/wallet.service.ts:366-381 | balance = totalPurchased - totalConsumed + totalAdjusted + signed refunds wherever the law holds and totalAdjusted follows its entries |
| `LedgerTotals.ChainTelescopes` | apps/api/src/modules/ai-billing/wallet.service.ts:317-336 | an unbroken chain of before/after snapshots ends on the sum of amounts and drifts |
| `LedgerTotals.AmountsSplitByKind` | apps/api/src/modules/ai-billing/wallet.service.ts:366-381 | the signed amounts split by the lifetime total each kind is mirrored into |
| `WholeAmounts.WholePostKeeps` | apps/api/src/modules/ai-billing/wallet.service.ts:304-364 | a posting of at most six decimals keeps law and totalAdjusted for every tenant |
| `BankInvariant.PostKeepsInv` | apps/api/src/modules/ai-billing/wallet.service.ts:88-95 | a posting keeps every tenant's books: chain, lifetime totals, reserved column, overdraft bound |
| `BankInvariant.ReserveKeepsInv` | apps/api/src/modules/ai-billing/wallet.service.ts:102-139 | so does a reservation |
| `BankInvariant.FinalizeKeepsInv` | apps/api/src/modules/ai-billing/wallet.service.ts:146-188 | so does settling one, which adds at most one usage charge per hold |
| `BankInvariant.ReleaseKeepsInv` | apps/api/src/modules/ai-billing/wallet.service.ts:191-205 | so does releasing or expiring one |
| `BankInvariant.ClampNeverBites` | apps/api/src/modules/ai-billing/wallet.service.ts:161-165 | taking a hold off its wallet never meets the clamp at zero |
| `WalletCalls.WalletService.GetOrCreateWallet` | apps/api/src/modules/ai-billing/wallet.service.ts:57-68 | the tenant's wallet, created once with zero columns |
| `WalletCalls.WalletService.ApplyTransaction` | apps/api/src/modules/ai-billing/wallet.service.ts:304-364 | ledger row, balance, mirrored total and auto-suspension together, or the refusal and nothing |
| `WalletCalls.WalletService.PostTransaction` | apps/api/src/modules/ai-billing/wallet.service.ts:88-95 | commits exactly the posting, by column (balance by the amount, the lifetime total of its kind by its size, SUSPENDED exactly if an active wallet ends below its threshold), or refuses exactly for zero, a closed wallet or an overdraft not allowed, and rolls everything back, the new wallet included |
| `WalletEffects.PostExactly` | apps/api/src/modules/ai-billing/wallet.service.ts:304-364 | the same of the posting that every run and interleaving uses: each refusal if and only if, each column, the entry |
| `WalletCalls.WalletService.ReserveCredits` | apps/api/src/modules/ai-billing/wallet.service.ts:102-139 | for a positive amount succeeds if and only if the wallet, or the new one, is ACTIVE and reserved + amount <= balance: then one active hold and the reserved column, nothing else; names the refusal in every other case, which leaves nothing |
| `WalletEffects.ReserveExactly` | apps/api/src/modules/ai-billing/wallet.service.ts:102-139 | the same of the reservation that every run and interleaving uses |
| `WalletCalls.WalletService.FinalizeReservation` | apps/api/src/modules/ai-billing/wallet.service.ts:146-188 | refused exactly for a negative charge, a hold that is not there or not active, or a charge to a closed wallet; otherwise frees the hold and posts the charge together |
| `WalletEffects.FinalizeExactly` | apps/api/src/modules/ai-billing/wallet.service.ts:146-188 | the same of the settling that every run uses |
| `WalletCalls.WalletService.ReleaseReservation` | apps/api/src/modules/ai-billing/wallet.service.ts:191-205 | frees an active hold and leaves any other alone |
| `WalletEffects.ReleaseExactly` | apps/api/src/modules/ai-billing/wallet.service.ts:191-205 | the same of the release and the expiry that every run uses |
| `WalletCalls.WalletService.FindStale` | apps/api/src/modules/ai-billing/wallet.service.ts:209-213 | at most 200 distinct active holds past their expiry, and all of them when fewer than 200 |
| `WalletCalls.WalletService.ExpireStaleReservations` | apps/api/src/modules/ai-billing/wallet.service.ts:208-223 | exactly the taken holds become EXPIRED and are freed, balances and ledger stay, and a sweep below its limit leaves nothing stale |
| `WalletCalls.WalletService.UpdateWalletSettings` | apps/api/src/modules/ai-billing/wallet.service.ts:249-282 | status and suspension threshold change, nothing else |
| `Purchases.CompleteKeeps` | apps/api/src/modules/ai-billing/purchase.service.ts:289-336 | completing keeps at most one PURCHASE entry per purchase, for exactly its amount: none while PENDING, one once COMPLETED, REFUNDED or with a payment intent |
| `Purchases.StripeKeeps` | apps/api/src/modules/ai-billing/purchase.service.ts:117-176 | so does any Stripe event, duplicated or out of order |
| `Purchases.ReviewKeeps` | apps/api/src/modules/ai-billing/purchase.service.ts:247-285 | so does any review |
| `Purchases.MarkRefundedKeeps` | apps/api/src/modules/ai-billing/refund.service.ts:133-138 | so does the unlocked status write of a full cash refund |
| `Purchases.CreditNeedsProof` | apps/api/src/modules/ai-billing/purchase.service.ts:107-148 | a Stripe event that touches the bank is one that proves payment of the right amount for a PENDING purchase, which it completes |
| `Purchases.PaidPurchaseIsCreditedExactly` | apps/api/src/modules/ai-billing/purchase.service.ts:117-148 | after an event that proves payment the purchase has its credits if and only if it had them before, as COMPLETED, REFUNDED or overwritten rows have, or it is PENDING, the wallet open and the amount makes up for what it is overdrawn by; nothing else changes anything |
| `Purchases.PendingIsCompletedExactly` | apps/api/src/modules/ai-billing/purchase.service.ts:300-322 | a completion that finds the row PENDING goes through for exactly its amount if and only if the wallet is open and not overdrawn by more |
| `BillingHistories.CreditedExactly` | apps/api/src/modules/ai-billing/purchase.service.ts:289-336 | over every run: a purchase has its credits if and only if an event that proved its payment, or an approval of its bank transfer, found it PENDING and its wallet able to take them |
| `BillingHistories.LostForGood` | apps/api/src/modules/ai-billing/purchase.service.ts:305-307 | a purchase that has left PENDING without its credits never gets them in any continuation of any run |
| `BillingWitnesses.PaidTooLate` | apps/api/src/modules/ai-billing/purchase.service.ts:187-199 | a run in which an asynchronous payment is proved after the sweep has timed the purchase out: no credits then or ever, with an open wallet |
| `BillingWitnesses.PaidAndNotCredited` | apps/api/src/modules/ai-billing/purchase.service.ts:300-322 | a run in which a purchase is proved paid and stays PENDING without credits: the wallet was overdrawn by a cash refund |
| `BillingTheorems.CancellationCanOverwriteCompletion` | apps/api/src/modules/ai-billing/purchase.service.ts:233-245 | whenever a cancellation has seen a purchase pending and a completion lands first, the purchase ends CANCELLED with its credits granted |
| `BillingHistories.OverwrittenExactly` | apps/api/src/modules/ai-billing/purchase.service.ts:233-245 | over every run: a purchase is CANCELLED or REJECTED with its credits granted if and only if a stale write landed on it after it was completed and no refund has relabelled it since |
| `BillingHistories.StepMoves` | apps/api/src/modules/ai-billing/purchase.service.ts:117-199 | what any step does to any purchase row, and when it completes it: it stays, is completed with one entry, times out without, turns REFUNDED with one, or is overwritten by a stale status; amount and tenant stay |
| `BillingWitnesses.CancelledWithCreditsGranted` | apps/api/src/modules/ai-billing/purchase.service.ts:233-245 | such a run: cancellation reads, payment completes, cancellation writes |
| `PurchaseCalls.PurchaseService.SubmitPurchase` | apps/api/src/modules/ai-billing/purchase.service.ts:62-84 | one new PENDING row for an amount from 1 to 100000 credits, or nothing |
| `PurchaseCalls.PurchaseService.CompletePurchase` | apps/api/src/modules/ai-billing/purchase.service.ts:289-336 | entry and status change together, a repetition changes nothing, any refusal leaves nothing |
| `PurchaseCalls.PurchaseService.HandleStripeEvent` | apps/api/src/modules/ai-billing/purchase.service.ts:117-176 | a paid session whose total, if any, is the amount to the nearest cent completes its purchase; a failed payment rejects and an expired session times out a PENDING one; nothing else changes anything |
| `PurchaseCalls.PurchaseService.CancelOwnPending` | apps/api/src/modules/ai-billing/purchase.service.ts:233-245 | cancels if and only if the purchase is the caller's tenant's own and PENDING |
| `PurchaseCalls.PurchaseService.ReviewBankTransfer` | apps/api/src/modules/ai-billing/purchase.service.ts:247-285 | decides exactly a PENDING bank transfer |
| `PurchaseCalls.PurchaseService.ExpireStaleStripePurchases` | apps/api/src/modules/ai-billing/purchase.service.ts:191-199 | times out exactly the PENDING card purchases from before the cutoff; bank transfers stay |
| `PurchaseEffects.CompleteExactly` | apps/api/src/modules/ai-billing/purchase.service.ts:289-336 | by column, as every run and interleaving uses it: a PENDING row is posted for its amount and COMPLETED together, a COMPLETED one stays, any other is refused |
| `PurchaseEffects.EventExactly` | apps/api/src/modules/ai-billing/purchase.service.ts:117-176 | by column, as every run uses it: which events complete, reject or time out which rows |
| `PurchaseEffects.CallsExactly` | apps/api/src/modules/ai-billing/purchase.service.ts:62-285 | by column, as every run uses them: submissions, cancellations with their late write, reviews and the sweep |
| `Refunds.CreateKeeps` | apps/api/src/modules/ai-billing/refund.service.ts:39-157 | the cumulative cap, REFUNDED = all of it refunded, and REFUND entries = completed wallet credits - completed cash, whatever the card network and the ledger answer |
| `Refunds.RefundedMeansPaidBack` | apps/api/src/modules/ai-billing/refund.service.ts:80-82 | a REFUNDED purchase has been paid back in full if and only if no refund of it is PENDING for more than nothing; never more than its amount is paid back |
| `Refunds.TurningRefundedPaysBackExactly` | apps/api/src/modules/ai-billing/refund.service.ts:80-138 | the call that turns a purchase REFUNDED has then paid back all of it if and only if no refund of it was PENDING before the call |
| `BillingWitnesses.RefundedWithHalfPaidBack` | apps/api/src/modules/ai-billing/refund.service.ts:87-138 | a run that ends REFUNDED with half paid back: a process died after creating a PENDING refund, the rest was refunded in cash |
| `BillingHistories.AcceptedCashIsBookedExactly` | apps/api/src/modules/ai-billing/refund.service.ts:100-157 | a cash refund the card network accepted becomes COMPLETED exactly unless the wallet is CLOSED; then it is marked FAILED although it was paid |
| `BillingHistories.PaysItsBookingExactly` | apps/api/src/modules/ai-billing/refund.service.ts:100-125 | a refund call, which asks for the nearest cents and for all of the rest where they are zero, pays what it books if and only if the wallet is not CLOSED, the answer arrives and the amount is a positive whole number of cents, or nothing is asked for or left |
| `BillingHistories.BooksFollowCardExactly` | apps/api/src/modules/ai-billing/refund.service.ts:100-125 | over every run: what the network has paid out is at all times what the books have as completed if and only if every call was such a call |
| `BillingHistories.CardPayoutsAccounted` | apps/api/src/modules/ai-billing/refund.service.ts:100-157 | over every run the card payouts are at most twice the completed cash refunds, besides what was paid and not booked and what was asked for without an amount |
| `BillingHistories.CardPayoutsCapped` | apps/api/src/modules/ai-billing/refund.service.ts:61-82 | so they stay within twice the purchase besides those two kinds, and within the purchase where every call pays what it books |
| `BillingHistories.ChargeCapsPayouts` | apps/api/src/modules/ai-billing/stripe.client.ts:63-69 | a network that pays no call more than is left of the charge pays no more than the charge in all, which is the amount to the nearest cent |
| `BillingWitnesses.FractionPaysAll` | apps/api/src/modules/ai-billing/stripe.client.ts:63-69 | a run with an open wallet and such a network: a cash refund of 0.004 credits pays out all of a purchase and books 0.004 |
| `BillingWitnesses.HalfCentsRun` | apps/api/src/modules/ai-billing/refund.service.ts:102-107 | four hundred cash refunds of half a cent, with an open wallet: the books refund a purchase once, a network that accepts them all pays it twice, which is the bound |
| `BillingWitnesses.PaidAndFailed` | apps/api/src/modules/ai-billing/stripe.client.ts:118-138 | a run in which the network pays a full refund and its answer gets lost: FAILED, nothing booked, and all of it refundable again |
| `BillingWitnesses.PaidOutTwice` | apps/api/src/modules/ai-billing/refund.service.ts:100-157 | a run with a CLOSED wallet in which the card network, if it accepts both calls, pays out a purchase twice and the books know of neither |
| `Refunds.RefundedExactlyOnFullCash` | apps/api/src/modules/ai-billing/refund.service.ts:131-138 | a call turns its purchase REFUNDED exactly when it completed a cash refund of all that was left, and touches no other purchase |
| `RefundCalls.RefundService.SumRefunds` | apps/api/src/modules/ai-billing/refund.service.ts:70-73 | the sum of PENDING and COMPLETED refunds of the purchase |
| `RefundCalls.RefundService.CheckPurchase` | apps/api/src/modules/ai-billing/refund.service.ts:61-85 | lets through exactly what the cap and the payment intent allow, and says whether it is all of the rest |
| `RefundCalls.RefundService.PayOut` | apps/api/src/modules/ai-billing/refund.service.ts:104-156 | card request in cents, ledger, refund and purchase rows together, or the refund FAILED and nothing else |
| `RefundCalls.RefundService.Create` | apps/api/src/modules/ai-billing/refund.service.ts:39-157 | the whole effect of a refund call for every outcome, and whether it completed |
| `RefundEffects.CreateExactly` | apps/api/src/modules/ai-billing/refund.service.ts:39-157 | by column: a request that is not for more than nothing, the tenant's own purchase within its remainder and, in cash, one with a payment intent writes no refund row; otherwise one row whose status, entry, sign and REFUNDED follow from the two answers |
| `RefundEffects.RequestExactly` | apps/api/src/modules/ai-billing/refund.service.ts:102-107 | the card is asked for the cents nearest to the amount, or for no amount where those are zero |
| `Disputes.AdminActionKeeps` | apps/api/src/modules/ai-billing/dispute.service.ts:160-269 | every admin action keeps all invariants, reversals included |
| `Disputes.ReversalsWithinConsumption` | apps/api/src/modules/ai-billing/dispute.service.ts:212-242 | a tenant's reversals never exceed what it consumed |
| `Disputes.ResolvedExactlyWhenLedgered` | apps/api/src/modules/ai-billing/dispute.service.ts:159-269 | a dispute becomes RESOLVED exactly when the action put one entry on its tenant's ledger |
| `Disputes.SecondReversalRefused` | apps/api/src/modules/ai-billing/dispute.service.ts:220-231 | a charge that has been reversed is not reversed again |
| `DisputeCalls.DisputeService.FindReversible` | apps/api/src/modules/ai-billing/dispute.service.ts:213-231 | finds exactly this tenant's usage charges without a reversal |
| `DisputeCalls.DisputeService.AdminAction` | apps/api/src/modules/ai-billing/dispute.service.ts:160-269 | the whole effect of an admin action; a refused posting leaves the dispute open |
| `RefundEffects.AdminExactly` | apps/api/src/modules/ai-billing/dispute.service.ts:160-269 | by column: a bonus posts its credits, a manual adjustment its signed delta, a reversal the opposite of the charge, each resolving the dispute unless the ledger refuses; the others write the dispute's status alone |
| `Charging.SettleKeeps` | apps/api/src/modules/ai-billing/charge.service.ts:123-190 | a settle keeps logged charges = settled holds, one charged log per hold, and margins within a unit |
| `Charging.PrepareKeeps` | apps/api/src/modules/ai-billing/charge.service.ts:65-116 | a prepare keeps that a ticket's hold covers its estimate |
| `Charging.MoneyTrailAgrees` | apps/api/src/modules/ai-billing/charge.service.ts:150-183 | logged customer charges = totalConsumed = minus the USAGE_CHARGE entries, per tenant |
| `Charging.LateSettleMovesNoMoney` | apps/api/src/modules/ai-billing/charge.service.ts:142-190 | once the hold is no longer active, a successful settle changes nothing and a failed one only adds a FAILED log row without a charge |
| `Charging.SettleChargesExactly` | apps/api/src/modules/ai-billing/charge.service.ts:142-190 | at prices that are not negative a successful settle charges the cost and logs it if and only if the hold is active and the wallet open or the cost zero; otherwise it leaves no trace |
| `Charging.OverrunBounded` | apps/api/src/modules/ai-billing/charge.service.ts:99-115 | within the estimate's tokens a million times what a charge exceeds its hold by is at most cached tokens times their rate, reasoning tokens times theirs, and a million units of rounding |
| `Charging.MarginExactly` | apps/api/src/modules/ai-billing/charge.service.ts:176-178 | a log row's margin is charge minus cost if and only if the call was unbilled or failed or the fractions of charge and cost beyond the sixth decimal round alike |
| `Charging.RoundingsAgreeExactly` | apps/api/src/modules/ai-billing/charge.service.ts:176-178 | without negative amounts they do exactly when they lie on the same side of half or at least half apart, half itself decided by the sign of the margin |
| `BillingWitnesses.MarginCanBeOff` | apps/api/src/modules/ai-billing/charge.service.ts:123-184 | a run: one token at a cost of 0.4 and a price of 0.6 millionths, prepared, charged and settled, is logged with charge 1, cost 0 and margin 0 |
| `ChargeCalls.ChargeService.Prepare` | apps/api/src/modules/ai-billing/charge.service.ts:65-116 | enforced, a ticket if and only if there is a price, the policy admits the call and the wallet is ACTIVE with the hold within its unreserved balance; the hold is the prompt at the input rate and the completion budget at the output rate, at least one millionth; a refusal leaves nothing |
| `ChargeCalls.ChargeService.Settle` | apps/api/src/modules/ai-billing/charge.service.ts:123-190 | charge or release and one usage log, whose cost and charge are the sums of each kind of tokens times its own rate per million and images times theirs, or nothing when the wallet refuses |
| `ChargeEffects.PrepareExactly` | apps/api/src/modules/ai-billing/charge.service.ts:65-116 | the same of the prepare that every run uses |
| `ChargeEffects.SettleExactly` | apps/api/src/modules/ai-billing/charge.service.ts:123-190 | the same of the settle that every run uses |
| `Pricing.CostExactly` | apps/api/src/modules/ai-billing/pricing.service.ts:91-118 | provider cost and charge, times a million, are if and only if prompt, completion, cached, reasoning and embedding tokens each times its own rate, and a million times images times theirs; the margin is their difference |
| `Pricing.EstimateExactly` | apps/api/src/modules/ai-billing/pricing.service.ts:126-131 | the estimate, times a million, is if and only if the prompt times the input rate and the completion budget times the output rate |
| `Pricing.OverrunIsCachedAndReasoning` | apps/api/src/modules/ai-billing/pricing.service.ts:91-131 | on the rates: a charge exceeds its estimate, times a million, by at most cached tokens times their rate and reasoning tokens times theirs |
| `Pricing.ResolvePricing` | apps/api/src/modules/ai-billing/pricing.service.ts:66-89 | the enabled row of the model, in force at the time, of the most specific scope that applies and in it the latest effective date; none only if no such row applies |
| `BillingRuns.RunKeeps` | apps/api/src/modules/ai-billing/wallet.service.ts:36-48 | every state any sequence of operations reaches keeps all invariants at once |
| `BillingSteps.StepExactly` | apps/api/src/modules/ai-billing/wallet.service.ts:36-48 | each step of a run has the effect of its call on the columns of the rows it touches, and changes nothing else |
| `BillingTheorems.ReservedIsActiveHolds` | apps/api/src/modules/ai-billing/wallet.service.ts:123-136 | reservedBalance is the sum of the active holds |
| `BillingTheorems.OverdraftBounded` | apps/api/src/modules/ai-billing/wallet.service.ts:102-188 | balance - reserved >= -(overruns of finalized holds + non-usage debits) |
| `BillingTheorems.HoldChargedAtMostOnce` | apps/api/src/modules/ai-billing/wallet.service.ts:169-186 | a hold yields at most one USAGE_CHARGE, and only a finalized one does |
| `BillingTheorems.SettledHoldsStay` | apps/api/src/modules/ai-billing/wallet.service.ts:155-205 | a hold that has left ACTIVE never changes again, whichever of finalize, release and sweep won |
| `BillingTheorems.PurchaseCreditedOnce` | apps/api/src/modules/ai-billing/purchase.service.ts:289-336 | at most one PURCHASE entry per purchase and for exactly its amount, over every run |
| `BillingTheorems.RefundsCapped` | apps/api/src/modules/ai-billing/refund.service.ts:61-82 | over every run refunds of a purchase never add up to more than it, and a REFUNDED one is paid back in full if and only if none of its refunds is waiting |
| `BillingTheorems.RefundEntriesAddUp` | apps/api/src/modules/ai-billing/refund.service.ts:110-130 | REFUND entries = completed WALLET_CREDIT - completed CASH, over every run |
| `BillingTheorems.ReversalsBounded` | apps/api/src/modules/ai-billing/dispute.service.ts:212-242 | reversals stay within consumption, over every run |
| `BillingTheorems.MoneyTrail` | apps/api/src/modules/ai-billing/charge.service.ts:123-190 | usage logs, totalConsumed and USAGE_CHARGE entries agree, over every run |
| `BillingTheorems.ChainAndDrift` | apps/api/src/modules/ai-billing/wallet.service.ts:317-336 | chain and drift account for every balance, over every run |
| `BillingTheorems.LifetimeTotalsOverRuns` | apps/api/src/modules/ai-billing/wallet.service.ts:44 | over every run whose amounts have at most six decimals: balance = sum of amounts = lifetime totals, for every wallet |
| `WalletGuards.GuardsHold` | apps/api/src/modules/ai-billing/wallet.service.ts:23-28 | no step but settling a call that ran or paying cash back takes any wallet below zero, or further below; and no step at all posts to a closed wallet |
| `WalletGuards.CrossingTheThresholdStopsReservations` | apps/api/src/modules/ai-billing/wallet.service.ts:339-355 | a posting that takes the balance below the suspension threshold makes the next reservation fail |
| `Workflow.ApprovedMeansEveryStep` | apps/api/src/core/workflow/workflow.service.ts:91-172 | with every await a step of its own and any number of stale callers: APPROVED means that each of the at least three steps has at least one and requiredApprovals distinct approvers in the log, and every approval of it is by the step's role, its named user, an ADMIN or no VIEWER, as the step's type asks |
| `Workflow.CurrentStepIsReached` | apps/api/src/core/workflow/workflow.service.ts:150-169 | in any status, every step before the current one is satisfied |
| `Workflow.EnsuredMeansEveryStep` | apps/api/src/core/workflow/workflow.service.ts:220-231 | an entity that passes ensureApproved has every step of its latest workflow satisfied |
| `Workflow.EnsuredIsApproved` | apps/api/src/core/workflow/workflow.service.ts:220-231 | ensureApproved names an instance if and only if it is the entity's latest and APPROVED |
| `Workflow.AdvanceKeeps` | apps/api/src/core/workflow/workflow.service.ts:91-218 | each await of approve and reject, on whatever was read earlier, keeps tables and call sound |
| `Workflow.PromoteKeeps` | apps/api/src/core/workflow/workflow.service.ts:150-169 | the final write of a stale approval, an absolute step number or APPROVED, is still justified by the log |
| `Workflow.ConcludeKeeps` | apps/api/src/modules/manufacturing/manufacturing.service.ts:5361-5472 | so are the final writes of rejection, return, cancellation and resubmission |
| `WorkflowRights.LoggedByRight` | apps/api/src/core/workflow/workflow.service.ts:244-283 | over every run and interleaving: every APPROVE, RETURN and REJECT in the log is by a call that was told its user's role while it had that step read as current, and on the step's columns that user and role may approve, return, reject or cancel |
| `WorkflowRights.LoneApprovalExactly` | apps/api/src/core/workflow/workflow.service.ts:91-172 | an undisturbed approval goes through if and only if the instance is in progress and of the tenant, the user authorised on the current step's columns and without an APPROVE action on it; then one action, and the next step or APPROVED once enough distinct users have approved |
| `WorkflowRights.LoneDecisionExactly` | apps/api/src/modules/manufacturing/manufacturing.service.ts:5361-5472 | an undisturbed rejection, return, cancellation or resubmission goes through if and only if status, canReject, approver columns, submitter or ADMIN allow it, and writes one action and one status |
| `Workflow.LoneApproval` | apps/api/src/core/workflow/workflow.service.ts:91-172 | what an undisturbed approval does, exactly: it counts if and only if the user may approve the current step and has not |
| `Workflow.StuckExactly` | apps/api/src/core/workflow/workflow.service.ts:115-127 | a step in progress can never be approved by anyone if and only if it is one user's and names nobody or somebody who has approved it before |
| `Workflow.ResubmissionIsStuckExactly` | apps/api/src/modules/manufacturing/manufacturing.service.ts:5440-5472 | a resubmission leaves such a workflow if and only if the first step is one user's who is not named or has approved it; so always once that step had been passed |
| `WorkflowRuns.ResubmittedRunIsStuck` | apps/api/src/modules/manufacturing/manufacturing.service.ts:5361-5472 | a run that gets there: started, approved by the named user, returned for changes, resubmitted |
| `WorkflowRuns.ServedAlone` | apps/api/src/core/workflow/workflow.service.ts:91-172 | inside any run a call that is not interleaved does what its awaits do back to back |
| `WorkflowRuns.TurnsApprovedExactly` | apps/api/src/core/workflow/workflow.service.ts:150-169 | whatever its status, an instance turns APPROVED exactly when a call writes that has counted enough approvers of the last step, REJECTED and CANCELLED ones included |
| `WorkflowRuns.MovesStepExactly` | apps/api/src/core/workflow/workflow.service.ts:150-169 | and its step changes exactly when such a call of an earlier step, or a resubmission, writes |
| `WorkflowRuns.DecidedEndsApprovedExactly` | apps/api/src/core/workflow/workflow.service.ts:91-172 | over every run: a workflow that was REJECTED or CANCELLED and not reopened since is APPROVED if and only if an approval that had read its last step before the decision wrote after it, and no other status was written since |
| `WorkflowRuns.RejectedTurnsApproved` | apps/api/src/core/workflow/workflow.service.ts:150-218 | a run in which a rejected workflow is turned APPROVED by an approval that had counted before the rejection |
| `Workflow.LoneStart` | apps/api/src/core/workflow/workflow.service.ts:24-89 | an undisturbed start makes one instance on step 1 and one SUBMIT action, or nothing |
| `WorkflowCalls.AssertTemplateStepsIntegrity` | apps/api/src/core/workflow/workflow.service.ts:285-297 | accepts exactly the step numbers 1..n in some order |
| `WorkflowCalls.WorkflowService.StartWorkflow` | apps/api/src/core/workflow/workflow.service.ts:24-89 | does what its awaits do back to back, and starts if and only if the steps are 1..n with n at least 3 and the entity has no instance in progress or on hold |
| `WorkflowCalls.WorkflowService.CountApprovals` | apps/api/src/core/workflow/workflow.service.ts:138-147 | the number of distinct approvers of the step |
| `Workflow.ApproversExactly` | apps/api/src/core/workflow/workflow.service.ts:138-147 | a user is counted if and only if the log has an APPROVE action of the step by it |
| `WorkflowCalls.WorkflowService.Approve` | apps/api/src/core/workflow/workflow.service.ts:91-172 | does what its awaits do back to back, and succeeds if and only if the instance is in progress, the step's type, role and named user allow the user, and the log has no approval of the step by it |
| `WorkflowCalls.WorkflowService.Reject` | apps/api/src/core/workflow/workflow.service.ts:174-218 | does what its awaits do back to back, and rejects if and only if the step can be rejected and its columns allow the user; otherwise leaves everything |
| `LinearSolver.SolveLinearSystem` | apps/api/src/forecast-engine/models/linear-solver.ts:14-63 | a returned vector is the one and only solution of A x = b; it refuses exactly where the pivoted elimination meets a column without a pivot of 1e-12, so on every singular and on no matrix that is not nearly singular |
| `LinearSolver.RefusedBetweenSingularAndNearlySingular` | apps/api/src/forecast-engine/models/linear-solver.ts:20-34 | every singular matrix is refused; a refused one has a combination of its columns, one of them taken once, that is below 1e-12 everywhere |
| `LinearSolver.NearlySingularExactly` | apps/api/src/forecast-engine/models/linear-solver.ts:32-34 | nearly singular means: some singular matrix differs in one column only, by less than 1e-12 in each entry |
| `LinearSolver.EliminateBelow` | apps/api/src/forecast-engine/models/linear-solver.ts:42-49 | clears the column below its pivot, keeping the solution set and every other entry the row operations do not touch |
| `LinearSolver.SwapKeepsSolutions` | apps/api/src/forecast-engine/models/linear-solver.ts:36-39 | swapping rows keeps the solution set |
| `LinearSolver.EliminateKeepsSolutions` | apps/api/src/forecast-engine/models/linear-solver.ts:42-49 | eliminating with a row keeps the solution set, both ways |
| `LinearSolver.FindPivot` | apps/api/src/forecast-engine/models/linear-solver.ts:21-30 | the row of largest magnitude on or below the diagonal |
| `LinearSolver.BackSubstitute` | apps/api/src/forecast-engine/models/linear-solver.ts:53-62 | solves the triangular system |
| `RidgeRegression.Regress` | apps/api/src/forecast-engine/models/linear-solver.ts:74-113 | zeros exactly where the solver refuses the normal equations; otherwise the coefficients are their sole solution and the unique minimiser of the penalised squared error |
| `RidgeRegression.RefusedIsCollinear` | apps/api/src/forecast-engine/models/linear-solver.ts:65-73 | a refusal means that some direction with a coordinate of one has a squared length, penalty included, below 1e-12 times the sum of its magnitudes |
| `RidgeRegression.OneObservationRefused` | apps/api/src/forecast-engine/models/linear-solver.ts:65-73 | the penalty does not prevent refusals: on one observation h > 1 beside the intercept it refuses if and only if penalty / h < 1e-12, though the normal equations have one solution |
| `RidgeRegression.BuildNormalEquations` | apps/api/src/forecast-engine/models/linear-solver.ts:84-109 | the accumulate, mirror and penalty loops build exactly X'X + penalty and X'y |
| `RidgeRegression.ObjectiveGap` | apps/api/src/forecast-engine/models/linear-solver.ts:65-73 | by how much any other coefficient vector is worse |
| `RidgeRegression.SoleSolutionIsUniqueMinimiser` | apps/api/src/forecast-engine/models/linear-solver.ts:65-73 | a sole solution of the normal equations beats every other vector, column 0 exempt from the penalty unless asked for |
| `RidgeRegression.ObjectiveIsPenalisedError` | apps/api/src/forecast-engine/models/linear-solver.ts:65-73 | what is minimised is the squared error and the ridge times the squared coefficients, without the intercept's unless it is to be penalised |
| `Sarima.LevelPathIsTheContinuation` | apps/api/src/forecast-engine/models/arima.model.ts:162-180 | integrated forecasts are the one continuation of the history whose differenced series goes on by the fitted recursion with zero future innovations |
| `Sarima.DifferencingUndoesIntegrating` | apps/api/src/forecast-engine/models/arima.model.ts:258-274 | through any stack of lags, differencing the integrated forecasts gives the stationary forecasts |
| `Sarima.IntegratingUndoesDifferencing` | apps/api/src/forecast-engine/models/arima.model.ts:258-274 | and integrating the differenced continuation gives the continuation |
| `Sarima.ObeyingIsUnique` | apps/api/src/forecast-engine/models/arima.model.ts:297-327 | the forecast recursion has exactly one solution |
| `Sarima.DifferenceOnce` | apps/api/src/forecast-engine/models/arima.model.ts:258-264 | the lagged differences |
| `Sarima.Integrate` | apps/api/src/forecast-engine/models/arima.model.ts:267-274 | the running sums at the lag after the history, NaN where they would read before its start |
| `Sarima.ForecastStationary` | apps/api/src/forecast-engine/models/arima.model.ts:297-327 | every value is what the model expects of the series so far, with zero future innovations (which is its regression at that time: ForecastsFollowRegression) |
| `SarimaForecast.ForecastsFollowRegression` | apps/api/src/forecast-engine/models/arima.model.ts:297-327 | forecasts obey the recursion if and only if each is the dot product of intercept and coefficients with a regression row of its own time: one, the series at the lags, the innovations at theirs, zero after the history |
| `SarimaForecast.FitAndPredict` | apps/api/src/forecast-engine/forecast-engine.service.ts:60-67 | fit followed by predict: with a lag and enough data the forecasts continue the history so that its differences go on by the regression that estimated the coefficients in two stages; otherwise, with enough history to integrate, by the mean difference; else the first is NaN |
| `Sarima.Predict` | apps/api/src/forecast-engine/models/arima.model.ts:162-180 | the forecasts are numbers exactly where the history is as long as all lags together, as for every fitted state; a fitted state predicts exactly the expected continuation, a fallback the one whose differences are the drift |
| `Sarima.IntegrateAllNumeric` | apps/api/src/forecast-engine/models/arima.model.ts:174-180 | through any stack: all forecasts are the real ones where every history is as long as its lag, and otherwise the first is NaN |
| `SarimaFit.RecordStages` | apps/api/src/forecast-engine/models/arima.model.ts:68-79 | the stages are the series before each difference, lag 1 first and the season last |
| `SarimaFit.BuildLags` | apps/api/src/forecast-engine/models/arima.model.ts:248-256 | exactly the ordinary lags and the multiples of the season, each once, ascending |
| `SarimaFit.EstimateInnovations` | apps/api/src/forecast-engine/models/arima.model.ts:277-295 | the residuals of the long autoregression, whose coefficients are the unique minimiser of the ridge objective, or zeros exactly where its normal equations are refused |
| `SarimaFit.InnovationsExactly` | apps/api/src/forecast-engine/models/arima.model.ts:289-294 | the innovations are zero before the order and from there what the series has beyond the long autoregression, if and only if |
| `SarimaFit.Fit` | apps/api/src/forecast-engine/models/arima.model.ts:49-160 | fits exactly when there is a lag and five values more than the largest one, and falls back to the mean otherwise; lags, stages, innovations of the long autoregression and coefficients are those of the two-stage regression |
| `SarimaFit.LargestLagBounds` | apps/api/src/forecast-engine/models/arima.model.ts:81-86 | the largest lag is the least bound of all the model's lags |
| `SarimaFit.LongOrderFits` | apps/api/src/forecast-engine/models/arima.model.ts:102-103 | the long order is the greatest within a third of the series that is at most 8 or two past every lag, and lies inside the series |
| `SarimaFit.DriftIsTheAverageStep` | apps/api/src/forecast-engine/models/arima.model.ts:88-90 | the mean of the first differences is the whole rise over the steps |
| `HoltWinters.NoResidualsExactlyWhenPeriodic` | apps/api/src/forecast-engine/models/holt-winters.model.ts:51-116 | season of at least two, in both forms: all residuals are zero if and only if the history is exactly periodic |
| `HoltWinters.NoTrendWithoutResiduals` | apps/api/src/forecast-engine/models/holt-winters.model.ts:276-282 | a fit without residuals has measured no trend: a trend would gain a season less than the measure needs |
| `HoltWinters.PeriodicIsFixedPoint` | apps/api/src/forecast-engine/models/holt-winters.model.ts:51-107 | on an exactly periodic history level and trend never move and the seasonal parts are the values' own, for any weights, damped or not, in both forms |
| `HoltWinters.PeriodicFitDefinedExactly` | apps/api/src/forecast-engine/models/holt-winters.model.ts:51-107 | on an exactly periodic history the fit is defined if and only if the form is additive or neither the mean nor a value of the first season is zero |
| `HoltWinters.PeriodicHasNoResiduals` | apps/api/src/forecast-engine/models/holt-winters.model.ts:109-116 | then every residual is zero |
| `HoltWinters.PeriodicIsContinued` | apps/api/src/forecast-engine/models/holt-winters.model.ts:147-165 | and the forecasts continue the period at every horizon |
| `HoltWinters.InitializeComponents` | apps/api/src/forecast-engine/models/holt-winters.model.ts:270-294 | level, trend and seasonal parts of the first two seasons |
| `HoltWinters.Fit` | apps/api/src/forecast-engine/models/holt-winters.model.ts:43-107 | returns c if and only if level and trend start from the two seasons' means and the seasonal parts from the first, and each further value corrects them by its error e from the forecast: level by alpha e, trend by alpha beta e before damping, part by gamma (1 - alpha) e, each per unit of the factor divided by in the multiplicative form; none exactly where no c is so |
| `HoltWinters.RunIsSmoothed` | apps/api/src/forecast-engine/models/holt-winters.model.ts:59-107 | the same after any number of values |
| `HoltWinters.StepCorrects` | apps/api/src/forecast-engine/models/holt-winters.model.ts:70-95 | the same of one value, in both forms, with and without damping |
| `HoltWinters.ErrorIsOfForecast` | apps/api/src/forecast-engine/models/holt-winters.model.ts:70-83 | the error that corrects the level is what the one-step forecast misses |
| `HoltWinters.AdditiveRuns` | apps/api/src/forecast-engine/models/holt-winters.model.ts:75-107 | an additive fit is always defined |
| `HoltWinters.CalculateFittedValues` | apps/api/src/forecast-engine/models/holt-winters.model.ts:296-317 | the one-step forecasts |
| `HoltWinters.Predict` | apps/api/src/forecast-engine/models/holt-winters.model.ts:147-165 | the levels ahead go on from the last: the first gains the trend, each further one what the one before gained, damped every time if so set; with the last season's parts in turn they are the forecasts |
| `TrendLine.CalculateRegression` | apps/api/src/forecast-engine/models/linear-regression.model.ts:217-248 | the line through both means with the balancing slope, and r2 from the two error sums |
| `TrendLine.BalancingIsBest` | apps/api/src/forecast-engine/models/linear-regression.model.ts:232-240 | no line has a smaller squared error, and only this one has as small |
| `TrendLine.RSquaredIsAShare` | apps/api/src/forecast-engine/models/linear-regression.model.ts:242-251 | 0 <= r2 <= 1, and 1 exactly for a history on a line that is not level |
| `TrendLine.LinearIsRecovered` | apps/api/src/forecast-engine/models/linear-regression.model.ts:95-98 | an exactly linear history determines its line, so it is extrapolated exactly |
| `TrendLine.Predict` | apps/api/src/forecast-engine/models/linear-regression.model.ts:95-98 | the line at the indices after the last |
| `UsageGuard.CountersAreOpenLeases` | apps/api/src/modules/ai-reporting/ai-reporting-usage.guard.ts:20-43 | in every reachable state each counter is exactly the open leases, within its limit, and no zero entry stays |
| `UsageGuard.TenantCounterIsSum` | apps/api/src/modules/ai-reporting/ai-reporting-usage.guard.ts:27-35 | a tenant's counter is the sum of its users' |
| `UsageGuard.UserKeyInjective` | apps/api/src/modules/ai-reporting/ai-reporting-usage.guard.ts:25 | two callers share a counter key only if they are the same user of the same tenant |
| `UsageGuard.Guard.Acquire` | apps/api/src/modules/ai-reporting/ai-reporting-usage.guard.ts:20-43 | both counters up by one and a fresh lease exactly when both limits allow |
| `UsageGuard.UsageLease.Release` | apps/api/src/modules/ai-reporting/ai-reporting-usage.guard.ts:36-42 | both counters back once; a repetition does nothing |
| `FiscalCalendar.FiscalYearHolds` | apps/web/src/utils/date-presets.ts:46-57 | the fiscal year holds its date, for every date and start month, exactly unless it starts in one of the years 0 to 99 |
| `FiscalCalendar.QuarterHolds` | apps/api/src/core/time/time-bucket.service.ts:76-86 | so does the fiscal quarter |
| `FiscalCalendar.MonthHolds` | apps/api/src/core/time/time-bucket.service.ts:87-96 | so does the month, by its own year |
| `FiscalCalendar.QuartersTileTheYear` | apps/api/src/core/time/time-bucket.service.ts:76-86 | four quarters tile the fiscal year without gap or overlap |
| `FiscalCalendar.YearsTileTheCalendar` | apps/api/src/core/time/time-bucket.service.ts:68-75 | the next fiscal year starts the day after, leap years included, exactly where both years are read alike |
| `FiscalCalendar.BucketsAreTheHelpers` | apps/api/src/core/time/time-bucket.service.ts:66-86 | the API's yearly and quarterly windows are the web helpers' results, for every date |
| `FiscalCalendar.LabelsNameTheWindow` | apps/api/src/core/time/time-bucket.service.ts:66-96 | fiscal year, quarter and month labels name the window they are stored with, and the month has its quarter's labels |
| `FiscalCalendar.SameYearSameWindow` | apps/web/src/utils/date-presets.ts:46-57 | every date of a fiscal year gets the same window |
| `FiscalCalendar.LastYearIsThePreviousYear` | apps/web/src/utils/date-presets.ts:140-146 | the last-year preset ends the day before this fiscal year starts, and is that day's fiscal year exactly unless this is fiscal year 100 |
| `FiscalCalendar.PreviousQuarterIsAdjacent` | apps/web/src/utils/date-presets.ts:73-76 | the previous quarter is the quarter of the day before this one starts exactly where that day's fiscal year and the year this quarter starts in are read alike |
| `FiscalCalendar.EnsureBucket` | apps/api/src/core/time/time-bucket.service.ts:44-112 | a window of every kind of period holds exactly the dates of its date's fiscal year, quarter, month, week from Monday or day, as its year is read, and its own date exactly unless that year is one of 0 to 99 |
| `FiscalCalendar.WindowIsThePeriod` | apps/api/src/core/time/time-bucket.service.ts:66-112 | the same, date by date, for every valid start month |
| `FiscalCalendar.WeekIsFromMonday` | apps/api/src/core/time/time-bucket.service.ts:97-104 | a week's window is the seven days from a Monday around its date, and its number counts the stretches of seven days begun since the first of January |
| `TimeBuckets.AlwaysHeldExactly` | apps/api/src/core/time/time-bucket.service.ts:17-30 | every date is sure to get a bucket that holds it, in every run of requests, if and only if the keys follow the fiscal periods: months, days, years from January, calendar quarters; never weeks |
| `TimeBuckets.RowsAreFirstCome` | apps/api/src/core/time/time-bucket.service.ts:115-133 | every row keeps the window of the date that asked for its key first |
| `TimeBuckets.TimeBucketService.GetBucket` | apps/api/src/core/time/time-bucket.service.ts:17-39 | finds the row of the key or creates it |

## Left out

- Decimal precision: decimal.js rounds results to 20 significant digits; amounts are exact here until they are stored.
- A process that dies, or a status update that fails, after a refund's ledger entry was posted: the refund row then stays PENDING or turns FAILED although the money moved. A lost answer, and a process that dies before or after the card was paid but before the ledger, are in the model.
- `RefundService.create` and `DisputeService.adminAction` check before writing without a row lock; each call is one step, so two racing calls on the same row are not modelled.
- A failing usage-log insert after a finalized reservation: taken to succeed.
- Share locks of foreign keys, lock timeouts and multi-row updates that lock row by row: the purchase sweep is one statement per row in the interleaved model.
- The unique `stripe_event_id`: only the row lock and the status check are relied on.
- Low, critical and recharge thresholds, wallet summaries and listings, audit records, notifications, dispute messages and hand-set dispute statuses: no effect on money.
- `PricingService.create`, `update`, `simulate` and marginPct: plain row edits; price rows are whatever they are.
- Workflow templates are taken not to change while an instance runs; comments, attachments and dates are dropped, and the user query's answer is a parameter of the await, so there is always another user to ask.
- Two starts of a workflow for one entity may both find it free, as in the program; nothing is claimed about the number of active instances.
- What the card network itself allows or counts beyond its answers: a purchase's charge is taken to be its amount to the nearest cent, which the webhook checks where the session has a total; cents are computed exactly, without the floating-point product.
- Floating-point rounding, square roots, confidence intervals, metrics and the rounding and clamping of predictions: the models stop before them.
- SARIMA's seasonality test (an autocorrelation above 0.4) is a flag given to `Fit`.
- HoltWinters.Fit: assumes at least one season of data; with less the program reads past the end.
- HoltWinters.NoResidualsExactlyWhenPeriodic: asks for a season of at least two places (with one, any straight line fits without residuals), for a damping factor between 0 and 1 and, in the multiplicative form, for a first season above zero.
- Rate limits of the usage guard are one answer; tenant ids are UUIDs, of which only the absence of a colon is used.
- The printing of period keys, the frozen-period check, changes of the fiscal start month between requests, two first requests at once, time zones, daylight saving and the range limit of ECMAScript dates.
- The comparison presets and the rolling single-range presets.
- Provider registry, access policy, reporting, snapshots, authentication, user interface: outside these cores.
