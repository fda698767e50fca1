# LogiCommerce: proofs about money, stock and claims

This project models the parts of the LogiCommerce back end where several requests, webhooks and
workers write the same rows, and proves what those rows keep over every run. Each guarded update or
`$transaction` of a repository is one atomic step, given as a function on the tables it touches
(`Err` is a thrown error, after which the transaction has changed nothing). A protocol that takes
several statements is a state machine over such steps, and its steps interleave in any order. Rows
are appended, so a row's number is its position; the clock only moves forward; answers of providers
and queues are parameters of the steps. Beside each table model stands a class with the tables as
fields, whose methods update them as the source does and are proved equal to those functions. What
the functions do is pinned apart from their bodies: by invariants over runs, and by the `Effects`
modules, which say for every row of every table whether an operation changes it and to what.

How the modules follow the source:

- **Billing** (`BillingTables`, `BillingProtocol`, `BillingLease`, `BillingLedger`, `BillingStatus`,
  `BillingOnce`, `BillingRefunds`, `BillingTheorems`, `BillingLive`, `BillingWaterfall`,
  `BillingEffects`, `BillingService`): the rows
  of one invoice. Creators of checkout sessions run as acquire, price, check, insert, retain steps
  and may stop anywhere; webhooks are redelivered, reordered and late; refunds and credit notes run
  beside them.
- **Invoice document** (`InvoicePdf`, `InvoiceText`): the PDF writer and the amounts it prints.
- **Stock** (`Inventory`, `InventoryItems`, `InventoryTheorems`, `InventoryTables`, `Receiving`,
  `ReceivingEffects`, `FulfillmentRepository`): balances, the append-only ledger, reservations, the expiry sweeper, and
  receipts against shipping notices.
- **Commerce** (`CommercePricing`, `CommerceCart`, `CommerceOrders`, `CommerceRuns`,
  `CommerceQuotes`, `CommerceParcels`, `CommerceEffects`, `CommerceRepository`): quotes, cart versions, checkout, splits, purchase orders.
- **Claims** (`Outbox`, `OutboxEffects`, `OutboxPublisher`; `Escrow`, `EscrowSafety`, `EscrowLease`,
  `EscrowEffects`, `EscrowRepository`): the transactional outbox with many publishers, and the escrow holds of
  private offers with their release queue.
- **Sign-in** (`RefreshTokens`, `TokenFamilies`, `TokenEffects`, `AuthRepository`): refresh-token rotation, as in
  section 4.14.2 of RFC 9700, with reads and writes of a rotation apart from each other.
- **Freight** (`Freight`, `FreightAcceptance`, `FreightEffects`, `FreightBilling`,
  `FreightConfirmation`, `FreightRepository`): quote revisions, acceptance, the payment schedules, the
  invoice that billing starts from, and the payment that confirms a booking.
- **Pure code** (`CanonicalJson`, `CanonicalJsonParser`, `CanonicalJsonForm`, `Base32`,
  `CheckDigits`), with section 6 of RFC 4648, the UPU standard S10 and section 7.9 of the GS1 General
  Specifications as references.
- **Shared** (`Basics`, `Results`, `Sums`, `Queries`): small notions, answers, sums over rows, and the
  first rows of a sorted query. The runs that break a property are in `BillingCounterexamples`, `CommerceCounterexample`,
  `EscrowCounterexample` and `FreightCounterexample`.

## Where the code does not do what one would hope

Each failure is shown by a lemma about a concrete run or input, and beside it stands the exact
condition, for all states or inputs.

- The checkout lock does not by itself keep a captured amount within what a schedule owes. It fails
  when a creator stops before it keeps its lock (`BillingCounterexamples.LostRetainBreaksCapture`),
  when a success arrives after its session has expired (`LateSuccessBreaksCapture`), and when a creator
  outlives its lease, which leaves two payable sessions (`OutlivedLeaseInsertsTwice`). The lock's
  invariant holds throughout a run if and only if every step is harmless
  (`BillingTheorems.LeaseHoldsExact`), and runs in which creators keep within their 120 s and successes
  are in time are. Without any assumption, a second payable session appears exactly when one is
  inserted beside another (`BillingLive.OneLiveSessionExact`), and one that no longer fits exactly when
  a step takes money it counts on or it is inserted at a stale price (`BillingLive.CaptureFitsExact`).
- `applyRefund` checks for a negative balance before it looks whether the refund was applied already,
  so a repeated notification of a full refund is refused instead of ignored
  (`BillingCounterexamples.DuplicateRefundIsRefused`, exact in `BillingTheorems.NegativeGuardExact`).
- A FAILED refund that a provider later reports as succeeded can overdraw its capture
  (`BillingCounterexamples.RevivalOverdraws`, exact in `BillingTheorems.RevivalExact`).
- The write after a refund's provider call is unconditional, so it can set an applied refund back to
  PENDING; a failure reported then frees money that is gone, and a further refund cannot be applied
  (`BillingCounterexamples.UndoneRefundOverdraws`). What is applied or may still be fits in its capture
  throughout a run exactly when every new claim had room (`BillingTheorems.ClaimsFitExact`).
- Removing a cart line writes the line and the version in two statements. A checkout in between passes
  the version check and charges for a line that the order does not have
  (`CommerceCounterexample.LateRemovalMisprices`, exact in `CommerceQuotes.QuotedIsOrdered`).
- A rotation that read its token before a revocation still commits after it
  (`TokenFamilies.RevocationRace`). A closed session gets one more token exactly when such a rotation
  can still claim its token under a fresh hash (`TokenFamilies.ClosedSessionStopsRotating`).
- Two concurrent offers under one key, with a provider that answers both with the same reference, can
  release a hold that an open offer relies on (`EscrowCounterexample.SharedReferenceLosesHold`, exact
  in `EscrowSafety.UnsafeStepExact`).
- Publishing and accepting a freight quote never look at the request, and no write of an operation
  repeats the check made when it read, so cancelling is not final: a draft that was left open reopens
  the request (`FreightCounterexample.CancelledRequestReopens`), and so does a submission that was in
  flight (`FreightCounterexample.SubmissionUndoesCancel`). Over every interleaving a cancelled request
  stays cancelled exactly when neither a quote nor a call in flight can take it further
  (`FreightAcceptance.CancelledFinalExact`). A write based on an older read can leave two open quotes
  (`FreightCounterexample.PublishOvertaken`); the quote rules hold throughout a run exactly when every
  write still meets its condition (`FreightAcceptance.SoundExact`).
- When the database fails during the offer's transaction and again during a lookup after it, the
  payment stays held for nothing (`EscrowCounterexample.LookupLosesHold`). Holds are kept throughout a
  run exactly when no failing lookup or compensating release drops one (`EscrowSafety.HoldsKeptExact`).
- Canonical JSON is canonical exactly when the key comparison never ties two different keys
  (`CanonicalJsonForm.CanonicalExact`, with two values for any tie in `CanonicalJsonForm.TiePrintsTwice`);
  a locale comparison may tie canonically equivalent strings.

The hour's cap of the escrow retry delay is never reached: delays lie between 2 and 1024 seconds and
never shrink (`EscrowLease.RetryDelayBounds`).

## Model

| member | source | states |
|---|---|---|
| `BillingTheorems.LeaseHolds` | apps/api/src/billing/billing.service.ts:134-245 | over every run of harmless steps the checkout-lock invariant holds: an unexpired PENDING session is covered by its schedule's lock and no creator with a right to insert shares its schedule |
| `BillingTheorems.LeaseHoldsExact` | apps/api/src/billing/billing.service.ts:134-245 | that invariant holds throughout a run if and only if every step is harmless: no creator outlives its lease, gives up or dies with a lock that its live session needs, and no success frees a lock that others rely on; runs with creators and successes in time are of that kind |
| `BillingLease.LeaseStepExact` | apps/api/src/billing/billing.service.ts:134-245 | the same for a single step from any state within the invariant: a late success keeps it exactly when refused or nobody else uses the schedule, a death exactly when the lock lasts without the creator |
| `BillingTheorems.AtMostOneLiveSession` | apps/api/src/billing/billing.service.ts:158-172 | over runs of harmless steps no schedule ever has two unexpired PENDING sessions |
| `BillingTheorems.CaptureAlwaysFits` | apps/api/src/billing/billing.service.ts:847-854 | over such runs the guard against capturing more than the remaining balance never fires for a session that is still in time |
| `BillingTheorems.CreditSparesLiveSession` | apps/api/src/billing/billing.service.ts:494-514 | over such runs no credit note takes anything from a schedule with an unexpired PENDING session |
| `BillingLive.OneLiveSessionExact` | apps/api/src/billing/billing.service.ts:158-199 | with no assumption at all, no schedule has two unexpired PENDING sessions throughout a run if and only if none is ever inserted beside another |
| `BillingLive.CaptureFitsExact` | apps/api/src/billing/billing.service.ts:847-854 | with no assumption at all, every unexpired PENDING session can be captured at any time of a run if and only if none is inserted at a price no longer owed and no capture or credit share takes what another one counts on |
| `BillingCounterexamples.LostRetainBreaksCapture` | apps/api/src/billing/billing.service.ts:213-224 | without the retain step a credit note shrinks the balance and the capture is refused |
| `BillingCounterexamples.LateSuccessBreaksCapture` | apps/api/src/billing/billing.service.ts:651-652 | with a success after expiry two sessions of one schedule are both paid by the buyer and the second capture is refused |
| `BillingCounterexamples.OutlivedLeaseInsertsTwice` | apps/api/src/billing/billing.service.ts:134-199 | a creator that sleeps past its lease inserts its session beside that of the next holder of the lock: two payable sessions of 100 on a schedule of 100 |
| `BillingTheorems.LedgerRefinesSubledger` | apps/api/src/billing/billing.service.ts:855-970 | over every run the invoice's paid and credited amounts are the sums over its schedules, each schedule keeps 0 <= paid + credited <= amount, every journal entry balances, and net postings give cash = paid, receivable = paid + credited, adjustment = credited |
| `BillingStatus.StatusFollowsBalance` | apps/api/src/billing/billing.service.ts:855-893 | over every run the invoice is PAID if and only if its total is positive and settled, ISSUED only while nothing is settled, PARTIALLY_PAID only when something is, OVERDUE only late, and never VOID; a schedule is DUE if and only if nothing of it is settled and PAID if and only if it has an amount and that is settled |
| `BillingLedger.WaterfallConserves` | apps/api/src/billing/billing.service.ts:493-520 | pouring a credit over the schedules credits exactly what it does not leave over and keeps each schedule within its amount |
| `BillingTheorems.ExactlyOnce` | apps/api/src/billing/billing.service.ts:619-687 | under any duplication, reordering and failure of events a session is COMPLETED exactly when it has one allocation and one posting, and a refund has one posting exactly when it is applied |
| `BillingTheorems.PaidIsCapturedLessRefunded` | apps/api/src/billing/billing.service.ts:870-893 | what a schedule shows as paid is the sum of its captures less the refunds applied to them |
| `BillingTheorems.NeverLeft` | apps/api/src/billing/billing.service.ts:635-642 | COMPLETED sessions, PROCESSED events and applied refunds stay so in every continuation |
| `BillingTheorems.RefundsWithinCapture` | apps/api/src/billing/billing.service.ts:342-361 | while FAILED refunds stay FAILED, the refunds of a session that have not failed never exceed its capture, whatever else is reported about them |
| `BillingTheorems.RevivalExact` | apps/api/src/billing/billing.service.ts:756-776 | after any run within that bound, the next step keeps it if and only if it does not take a refund out of FAILED whose amount others have reserved |
| `BillingTheorems.ClaimsFitExact` | apps/api/src/billing/billing.service.ts:342-413 | the refunds of a session that are applied or have not failed stay within its capture throughout a run if and only if each new request and each revival had room; runs in which FAILED stays FAILED and applied stays applied are of that kind |
| `BillingTheorems.NegativeGuardExact` | apps/api/src/billing/billing.service.ts:1001-1012 | after any run, when those claims fit, the negative-payment guard fires if and only if a completed refund that was already applied is larger than what is left paid |
| `BillingTheorems.SettlingNeverOverdraws` | apps/api/src/billing/billing.service.ts:1013-1053 | over runs in which each claim had room, a refund that has yet to be applied always finds enough paid on its invoice and schedule |
| `BillingCounterexamples.DuplicateRefundIsRefused` | apps/api/src/billing/billing.service.ts:1002-1012 | a second notification of a refund in full throws |
| `BillingCounterexamples.RevivalOverdraws` | apps/api/src/billing/billing.service.ts:756-764 | a revived refund beside its replacement reserves more than the capture and cannot be applied |
| `BillingCounterexamples.UndoneRefundOverdraws` | apps/api/src/billing/billing.service.ts:390-413 | with no revival, an applied refund is reported pending, then failed; a second refund of the whole capture is accepted and cannot be applied |
| `BillingWaterfall.WaterfallBlocked` | apps/api/src/billing/billing.service.ts:501-514 | the credit loop fails on a lock if and only if some locked schedule would get a share |
| `BillingWaterfall.WaterfallLeft` | apps/api/src/billing/billing.service.ts:493-519 | what the loop leaves over is the amount less the balance of all schedules, or nothing |
| `BillingWaterfall.WaterfallCredits` | apps/api/src/billing/billing.service.ts:497-508 | each schedule is credited its share in closed form: what the amount still holds after the balances before it, no more than its own |
| `BillingWaterfall.SettledInSequence` | apps/api/src/billing/billing.service.ts:494-516 | every schedule before one that is touched is settled, so those after the last one touched are unchanged |
| `BillingWaterfall.CreditNoteExact` | apps/api/src/billing/billing.service.ts:453-528 | with no active lock, a new credit note succeeds if and only if its amount is at most total - paid - credited |
| `BillingEffects.CaptureGoesThrough` | apps/api/src/billing/billing.service.ts:838-985 | a success goes through if and only if it repeats one, or fits what its schedule owes and can be posted and reported; its event must exist |
| `BillingEffects.CaptureRefused` | apps/api/src/billing/billing.service.ts:847-854 | which error a first success is refused with, for all inputs |
| `BillingEffects.CaptureEffect` | apps/api/src/billing/billing.service.ts:855-993 | a first success changes its session, schedule, invoice, allocation, entry and event rows as promised and no other row; each status is PAID if and only if its own balance is settled, else PARTIALLY_PAID |
| `BillingEffects.FailEffect` | apps/api/src/billing/billing.service.ts:650-667 | a reported failure fails a session that is PENDING, frees the lock that its key still holds, finishes the event, and changes nothing else |
| `BillingEffects.OverdueEffect` | apps/worker/src/worker.services.ts:318-324 | the sweep changes the invoice status if and only if it is ISSUED or PARTIALLY_PAID and past its due date, and then to OVERDUE |
| `BillingEffects.LockGranted` | apps/api/src/billing/billing.service.ts:134-144 | the lock is granted if and only if it is free or has run out, for 120 s, and touches no other schedule |
| `BillingEffects.RetainedUntilExpiry` | apps/api/src/billing/billing.service.ts:212-245 | a creator with a PENDING session keeps the lock until that session expires, or gives up |
| `BillingEffects.ClearedExact` | apps/api/src/billing/billing.service.ts:164-174 | a creator goes on if and only if its schedule has no unexpired PENDING session |
| `BillingEffects.PricedAtBalance` | apps/api/src/billing/billing.service.ts:153-163 | a creator asks for the whole open balance, or stops when the schedule is paid or the amount unsafe |
| `BillingEffects.InsertedAsPriced` | apps/api/src/billing/billing.service.ts:184-199 | the session it inserts is PENDING, for its schedule, price and key |
| `BillingEffects.ReserveEffect` | apps/api/src/billing/billing.service.ts:336-361 | a new refund request is accepted if and only if its session was captured and has that much unclaimed, and adds one PENDING row |
| `BillingEffects.ReportEffect` | apps/api/src/billing/billing.service.ts:756-776 | a notification decides every refund but a COMPLETED one, and no other row |
| `BillingEffects.SettleGoesThrough` | apps/api/src/billing/billing.service.ts:1001-1045 | a completed refund is applied if and only if invoice and schedule still hold its amount and it can be posted and reported |
| `BillingEffects.SettleEffect` | apps/api/src/billing/billing.service.ts:1008-1075 | it gives its amount back on its own schedule and invoice with one reversed entry; afterwards the invoice is PAID when settled, PARTIALLY_PAID when something is paid or credited, else OVERDUE past its due date and ISSUED before, and the schedule likewise |
| `BillingEffects.NoteEffect` | apps/api/src/billing/billing.service.ts:486-558 | a new credit note adds its row, amount and entry; a schedule changes only by taking credit, and says whether that settles it |
| `BillingEffects.NoteRefused` | apps/api/src/billing/billing.service.ts:443-480 | which error a new note is refused with before any schedule is looked at |
| `BillingService.BillingDatabase.AcquireCheckoutLock` | apps/api/src/billing/billing.service.ts:134-144 | writes the lock exactly when the row's guard allows it, and counts it |
| `BillingService.BillingDatabase.RetainCheckoutLock` | apps/api/src/billing/billing.service.ts:213-224 | prolongs the lock to the session's expiry exactly when the key still holds it |
| `BillingService.BillingDatabase.ReleaseCheckoutLock` | apps/api/src/billing/billing.service.ts:234-245 | frees the lock exactly when the key still holds it |
| `BillingService.BillingDatabase.CreateSession` | apps/api/src/billing/billing.service.ts:184-199 | inserts the session unless its idempotency key is taken |
| `BillingService.BillingDatabase.ProcessSuccessfulPayment` | apps/api/src/billing/billing.service.ts:826-993 | the capture transaction row by row equals the specification that `CaptureEffect` and `StatusFollowsBalance` speak of, and leaves nothing behind when it throws |
| `BillingService.BillingDatabase.FailPaymentSession` | apps/api/src/billing/billing.service.ts:653-671 | the three writes of a reported failure equal their specification |
| `BillingService.BillingDatabase.SweepExpiredSessions` | apps/worker/src/worker.services.ts:314-317 | exactly the PENDING sessions past their expiry become EXPIRED |
| `BillingService.BillingDatabase.RequestRefund` | apps/api/src/billing/billing.service.ts:336-388 | the reservation of a refund equals its specification, replay and refusal included |
| `BillingService.BillingDatabase.ApplyCompletedRefund` | apps/api/src/billing/billing.service.ts:995-1096 | applying a refund equals its specification, guard and claim in the source's order |
| `BillingService.BillingDatabase.PourCredit` | apps/api/src/billing/billing.service.ts:493-517 | the loop over the schedules computes the waterfall, or reports the lock that stops it |
| `BillingService.BillingDatabase.IssueNote` | apps/api/src/billing/billing.service.ts:440-563 | the credit-note transaction equals its specification, and leaves nothing behind when it throws |
| `InvoicePdf.OffsetsPointAtObjects` | apps/api/src/billing/billing.service.ts:1207-1212 | for any number of objects of any text, the offset of an object is the byte of the file at which `n 0 obj` starts |
| `InvoicePdf.StartxrefPointsAtTable` | apps/api/src/billing/billing.service.ts:1213-1219 | the number behind `startxref`, the last in the file, is the byte at which the table starts |
| `InvoicePdf.EntryExact` | apps/api/src/billing/billing.service.ts:1215-1218 | a cross-reference entry takes twenty bytes if and only if its offset is below 10^10, and then its ten digits read back as the offset |
| `InvoicePdf.EntryInPlace` | apps/api/src/billing/billing.service.ts:1214-1218 | while earlier offsets are below 10^10 each entry stands twenty bytes behind the one before it |
| `InvoiceText.LengthExact` | apps/api/src/billing/billing.service.ts:1199-1205 | the length that a stream object declares is the number of bytes between its keywords, UTF-8 included |
| `InvoiceText.LiteralExact` | apps/api/src/billing/billing.service.ts:1186-1201 | a reader of literal strings by section 7.3.4.2 of ISO 32000-1 gets a row back if and only if the row has no carriage return |
| `InvoiceText.EscapeIsEach` | apps/api/src/billing/billing.service.ts:1186-1187 | the three replacement passes escape each character once, in whatever order they meet |
| `InvoiceText.FormatReads` | apps/api/src/billing/billing.service.ts:48-52 | every printed amount reads back, negative and below one unit included |
| `InvoiceText.WriteObjects` | apps/api/src/billing/billing.service.ts:1207-1212 | appending objects and pushing byte lengths gives the body and its offsets, the unused entry 0 first |
| `InvoiceText.WriteInvoice` | apps/api/src/billing/billing.service.ts:1177-1221 | the writer produces the file that the offset lemmas speak of |
| `InventoryTheorems.ReservationsAccountForStock` | apps/api/src/commerce/commerce.repository.ts:655-751 | over every run RESERVED is the sum of the open reservations of an item, ALLOCATED that of the allocated ones, and none is both released and allocated |
| `InventoryTheorems.ExpiryNeverFails` | apps/worker/src/worker.services.ts:162-187 | the sweeper never finds a reservation without its reserved balance |
| `InventoryTheorems.AcceptanceNeverShort` | apps/api/src/commerce/commerce.repository.ts:996-1024 | acceptance can fail for a reservation that is gone, never for lack of reserved stock |
| `InventoryTheorems.AlwaysReconciled` | apps/api/src/commerce/commerce.repository.ts:234-272 | after any run every balance is non-negative and equals its ledger sum, so reconciliation reports no mismatch |
| `InventoryTheorems.UnitsConserved` | apps/api/src/commerce/commerce.repository.ts:663-751 | checkout, acceptance and expiry keep the units of every item over all states |
| `InventoryTheorems.UnitsFollowLedger` | apps/api/src/commerce/commerce.repository.ts:128-174 | every step changes the units of an item by exactly what arrives, the difference of a new count or the units a receipt accepts, and posts just that to the ledger |
| `InventoryItems.OneItemPerSku` | apps/api/src/commerce/commerce.repository.ts:102-118 | over every run no two items share facility and SKU |
| `InventoryItems.FeedSetsItem` | apps/api/src/commerce/commerce.repository.ts:102-174 | after any run, a new count leaves exactly the counted quantity on the one item of its facility and SKU, which is the row that was there if there was one, and every other item and balance as it was; a replay changes nothing |
| `InventoryItems.FeedGoesThrough` | apps/api/src/commerce/commerce.repository.ts:74-140 | a new count is taken if and only if it is a safe non-negative number and its difference can be posted |
| `InventoryItems.ReceiptAddsToItem` | apps/api/src/fulfillment/fulfillment.repository.ts:189-240 | after any run, a receipt adds its units to the one item of its facility and SKU; a new item starts from nothing |
| `InventoryItems.ReserveAllGoesThrough` | apps/api/src/commerce/commerce.repository.ts:655-720 | all lines of a checkout are reserved if and only if each product has an item and each item has enough on hand for all of its lines together; each line gets one reservation for a day on the first item of its product |
| `InventoryItems.AllocateEffect` | apps/api/src/commerce/commerce.repository.ts:995-1045 | accepting a line allocates the first open reservation of its demand, never fails for lack of stock, and moves its units with two entries |
| `InventoryItems.ReleaseEffect` | apps/worker/src/worker.services.ts:162-187 | an expired open reservation is released and its units are on hand again; any other is left alone |
| `InventoryTables.StockTables.InventoryFeed` | apps/api/src/commerce/commerce.repository.ts:74-208 | the feed transaction equals the specification that `FeedSetsItem` speaks of, rolled back when the difference is out of range |
| `InventoryTables.StockTables.Transfer` | apps/api/src/commerce/commerce.repository.ts:663-751 | guarded decrement, upserting increment and two ledger entries move units or do nothing |
| `InventoryTables.StockTables.Reserve` | apps/api/src/commerce/commerce.repository.ts:656-720 | the stock side of one checkout line equals its specification |
| `InventoryTables.StockTables.Allocate` | apps/api/src/commerce/commerce.repository.ts:996-1074 | the stock side of one accepted line equals its specification |
| `InventoryTables.StockTables.ReleaseBatch` | apps/worker/src/worker.services.ts:152-252 | the sweep fetches the expired open reservations, earliest first and a hundred at most, never throws, releases them one transaction at a time and keeps the stock invariant |
| `InventoryTables.ReleaseAllExact` | apps/worker/src/worker.services.ts:162-187 | a batch releases exactly its reservations that are still open and expired |
| `InventoryTables.SweepExact` | apps/worker/src/worker.services.ts:152-187 | after a sweep every reservation that had expired is released, unless a full batch of earlier ones came first |
| `Receiving.ReceiptsAccountForUnits` | apps/api/src/fulfillment/fulfillment.repository.ts:181-279 | over every run of announcements, receipts, replays and putaways, from a dock without notices, the units that came on hand are the units recorded as accepted; lines stay consistent and a notice is COMPLETED exactly when nothing is left to inspect or put away |
| `Receiving.ReplayExact` | apps/api/src/fulfillment/fulfillment.repository.ts:141-151 | whatever ran since, a receipt sent again under its key changes nothing if and only if it is for the same notice with the same lines; anything else under that key is refused |
| `Receiving.CanonicalExact` | apps/api/src/fulfillment/fulfillment.repository.ts:24-34 | two payloads are hashed alike exactly when they hold the same lines, in whatever order |
| `ReceivingEffects.LinesPointAtTheirItem` | apps/api/src/fulfillment/fulfillment.repository.ts:189-250 | over every run of the dock, an accepted line points at exactly the item of its notice's facility and its own SKU |
| `ReceivingEffects.ReceiptGoesThrough` | apps/api/src/fulfillment/fulfillment.repository.ts:152-168 | a new receipt goes through if and only if the notice is open and every reported line awaits inspection, within what was expected, passed exactly when something is accepted |
| `ReceivingEffects.ReceiptEffect` | apps/api/src/fulfillment/fulfillment.repository.ts:171-271 | every reported line shows its report, every other line and notice is as it was |
| `ReceivingEffects.PutawayGoesThrough` | apps/api/src/fulfillment/fulfillment.repository.ts:316-327 | a line is put away if and only if it was accepted, and is in that bin already or in none while its notice is IN_PROGRESS |
| `ReceivingEffects.PutawayEffect` | apps/api/src/fulfillment/fulfillment.repository.ts:328-346 | it sets that line's bin; the notice is COMPLETED if and only if no line is uninspected or accepted without a bin |
| `FulfillmentRepository.Repository.CreateAsn` | apps/api/src/fulfillment/fulfillment.repository.ts:89-116 | the notice with its lines as announced equals its specification |
| `FulfillmentRepository.Repository.ReceiveNotice` | apps/api/src/fulfillment/fulfillment.repository.ts:120-283 | the receipt transaction with its validation and line loops equals its specification |
| `FulfillmentRepository.Repository.PutawayLine` | apps/api/src/fulfillment/fulfillment.repository.ts:305-352 | putaway equals its specification and completes the notice when no blocker remains |
| `CommercePricing.QuoteIsFair` | apps/api/src/commerce/commerce.service.ts:199-228 | a quote discounts between nothing and the subtotal, so the buyer pays at least tax and shipping; a percentage is rounded to the nearest minor unit, halves up; a fixed discount is capped |
| `CommercePricing.GroupsSumToLines` | apps/api/src/commerce/commerce.repository.ts:752-799 | the splits' subtotals add up to the order's lines |
| `CommercePricing.GroupsAsManyAsQuoted` | apps/api/src/commerce/commerce.service.ts:212-214 | there are as many splits as the quote counts |
| `CommercePricing.EachLineInOneGroup` | apps/api/src/commerce/commerce.repository.ts:752-766 | every line lands in exactly one split, once |
| `CommercePricing.GroupIsOneSupplier` | apps/api/src/commerce/commerce.repository.ts:752-758 | with identifiers free of colons, as UUIDs are, a split holds exactly the lines of one seller and supplier |
| `CommercePricing.QuoteGoesThrough` | apps/api/src/commerce/commerce.service.ts:179-228 | below the safe bound, a cart is quoted if and only if it is active, has lines that its offers still back, and its promotion is available and its minimum reached |
| `CommerceQuotes.QuotedIsOrdered` | apps/api/src/commerce/commerce.repository.ts:600-639 | whatever ran before, in between and afterwards: the order row of a checkout carries its cart, buyer, key and quote for good; its lines are exactly the quoted ones if and only if no removal slipped in between its two statements; then they add up to the subtotal on the row, with as many splits as it says; they are never worth more |
| `CommerceQuotes.OrderStands` | apps/api/src/commerce/commerce.repository.ts:623-644 | an order keeps its cart, buyer, key and quote, its lines and its splits in every continuation, and stays confirmed |
| `CommerceQuotes.PlacedRows` | apps/api/src/commerce/commerce.repository.ts:623-798 | a checkout under a new key adds exactly one order, unconfirmed, with what was passed in, the lines of the cart and one split per seller and supplier |
| `CommerceParcels.SplitsHoldTheirLines` | apps/api/src/commerce/commerce.repository.ts:752-798 | over every run the lines of a purchase order are of its split's seller and supplier, where identifiers have no colon, and the split's subtotal is the sum of just those lines |
| `CommerceEffects.CheckoutGoesThrough` | apps/api/src/commerce/commerce.repository.ts:577-620 | a checkout under a new key succeeds if and only if it is the buyer's active, unexpired cart at that version, with lines that match their offers, store and currency, and stock has enough for all lines together |
| `CommerceEffects.CheckoutRefused` | apps/api/src/commerce/commerce.repository.ts:602-620 | which error it is refused with, in the source's order |
| `CommerceEffects.CheckoutEffect` | apps/api/src/commerce/commerce.repository.ts:623-806 | it closes that cart with a new version, adds that order, and moves to RESERVED what each item is asked for |
| `CommerceEffects.CheckoutLines` | apps/api/src/commerce/commerce.repository.ts:693-720 | each cart line becomes one order line with its offer's goods and its own quantity and price, and one reservation |
| `CommerceEffects.CheckoutSplits` | apps/api/src/commerce/commerce.repository.ts:767-798 | it adds at least one split, each with its own pending purchase order |
| `CommerceEffects.AcceptEffect` | apps/api/src/commerce/commerce.repository.ts:1039-1105 | acceptance touches its purchase order, split and reservations, and confirms the order if and only if no split of it is pending |
| `CommerceEffects.OneLinePerOffer` | apps/api/src/commerce/commerce.repository.ts:423-448 | however carts are edited none ever has two lines of one offer |
| `CommerceEffects.PutEffect` | apps/api/src/commerce/commerce.repository.ts:423-452 | a put line is the cart's line of its offer, every other line stays, and the version is new |
| `CommerceEffects.RemoveEffect` | apps/api/src/commerce/commerce.repository.ts:489-505 | a removal takes out that line alone, and the version only moves with its second statement |
| `CommerceCounterexample.LateRemovalMisprices` | apps/api/src/commerce/commerce.repository.ts:489-505 | a checkout between the two statements of a removal passes the version check and charges 150 for goods worth 50 |
| `CommerceRuns.OrderTotalsAgree` | apps/api/src/commerce/commerce.repository.ts:768-799 | over every run the lines, splits and purchase orders of an order add up to the same amount |
| `CommerceRuns.EachLineDelivered` | apps/api/src/commerce/commerce.repository.ts:789-797 | every order line is on exactly one purchase order, of its own order, once |
| `CommerceRuns.OneOrderPerCart` | apps/api/src/commerce/commerce.repository.ts:574-603 | a cart is ordered at most once and a key never orders twice: any further checkout replays or is refused |
| `CommerceRuns.AcceptanceExact` | apps/api/src/commerce/commerce.repository.ts:979-1024 | a purchase order can be accepted if and only if it is pending and none of its reservations was released |
| `CommerceRuns.ConfirmedExact` | apps/api/src/commerce/commerce.repository.ts:1087-1103 | an order is CONFIRMED exactly when all of its stock is allocated |
| `CommerceRuns.ExpiredNeverConfirmed` | apps/worker/src/worker.services.ts:162-187 | an order that lost a reservation to expiry is never CONFIRMED |
| `CommerceRepository.Repository.AddCartLine` | apps/api/src/commerce/commerce.repository.ts:403-454 | upserts the line and bumps the version in one write |
| `CommerceRepository.Repository.UpdateCartLine` | apps/api/src/commerce/commerce.repository.ts:456-487 | changes an existing line to the offer's price and version and bumps the cart's |
| `CommerceRepository.Repository.DeleteCartLine` | apps/api/src/commerce/commerce.repository.ts:489-500 | removes the line and leaves the version as it was |
| `CommerceRepository.Repository.OrderLinesOf` | apps/api/src/commerce/commerce.repository.ts:646-767 | the loop reserves and records every line and fills the insertion-ordered map with the groups of the lines, or stops at the first that cannot be reserved |
| `CommerceRepository.Repository.SplitOrder` | apps/api/src/commerce/commerce.repository.ts:768-799 | one split and one purchase order per group, in order of first occurrence |
| `CommerceRepository.Repository.CheckoutCart` | apps/api/src/commerce/commerce.repository.ts:565-889 | the checkout transaction equals its specification, every refusal in the source's order, with nothing left behind |
| `CommerceRepository.Repository.AcceptPurchaseOrder` | apps/api/src/commerce/commerce.repository.ts:972-1131 | acceptance equals its specification, and confirms the order when no split is pending |
| `Outbox.ClaimSeesTheRowItRead` | apps/worker/src/worker.services.ts:68-88 | with any number of publishers and crashes a claim commits only on a row unchanged since it was read |
| `Outbox.ClaimsAreSpaced` | apps/worker/src/worker.services.ts:75-88 | two claims of an event are at least a minute apart unless a failure was recorded between them |
| `Outbox.RetriesBackOff` | apps/worker/src/worker.services.ts:111-122 | after a recorded failure the next claim waits at least the smallest backoff |
| `Outbox.PublishedIsQueued` | apps/worker/src/worker.services.ts:90-110 | an event marked PUBLISHED is in the queue under its id |
| `Outbox.PublishedIsFinal` | apps/worker/src/worker.services.ts:106-122 | PUBLISHED is never left |
| `Outbox.ClaimableWithinAnHour` | apps/worker/src/worker.services.ts:111-122 | every event that is not published can be claimed again within the largest backoff |
| `OutboxEffects.BackoffDoubles` | apps/worker/src/worker.services.ts:115-120 | the wait after the first failure is ten seconds, doubles with each further one, and stays at an hour |
| `OutboxEffects.ClaimEffect` | apps/worker/src/worker.services.ts:69-83 | a claim commits if and only if the row is as it was read; it counts the attempt and holds the row for a minute |
| `OutboxEffects.FailEffect` | apps/worker/src/worker.services.ts:114-123 | a failure schedules a row that is still PROCESSING after that wait, and no other |
| `OutboxEffects.PublishEffect` | apps/worker/src/worker.services.ts:84-109 | an event is queued under its id and then published if it is still PROCESSING |
| `OutboxPublisher.UndisturbedBatch` | apps/worker/src/worker.services.ts:68-125 | left alone, a batch publishes what the queue accepts and schedules the rest for retry with their backoff |
| `OutboxPublisher.DeliverIsRun` | apps/worker/src/worker.services.ts:74-122 | one turn of the loop is a run of the protocol's steps for that attempt |
| `OutboxPublisher.Publisher.Fetch` | apps/worker/src/worker.services.ts:60-67 | fetches the first eligible rows in order of creation, a batch at most, and misses none before its last |
| `OutboxPublisher.Publisher.PublishBatch` | apps/worker/src/worker.services.ts:58-128 | the publisher's loop equals the batch of turns |
| `EscrowSafety.ReleaseRowExact` | apps/api/src/c2c/c2c.repository.ts:232-240 | over every run an offer has a release row if and only if it is COUNTERED, REJECTED or EXPIRED |
| `EscrowSafety.OneAcceptedPerListing` | apps/api/src/c2c/c2c.repository.ts:284-343 | at most one offer of a listing is ever ACCEPTED |
| `EscrowEffects.AcceptanceSettlesListing` | apps/api/src/c2c/c2c.repository.ts:284-343 | from every reachable market: an acceptance goes through if and only if the offer is open and unexpired, the listing unsold and the caller its seller; then the offer is ACCEPTED and sold, every other open offer of the listing is REJECTED with a release queued, and all other offers and releases stay; otherwise nothing changes |
| `EscrowEffects.NothingLeftOpen` | apps/api/src/c2c/c2c.repository.ts:298-324 | so no offer of the listing is left open, and each but the accepted one has its release |
| `EscrowEffects.OffersAreSound` | apps/api/src/c2c/c2c.repository.ts:189-213 | over every run nobody offers on their own listing, and a counter-offer follows an earlier offer of the same buyer on the same listing, which is COUNTERED |
| `EscrowEffects.AskGoesThrough` | apps/api/src/c2c/c2c.repository.ts:182-213 | which requests go on to the payment provider, both directions |
| `EscrowEffects.InsertGoesThrough` | apps/api/src/c2c/c2c.repository.ts:231-250 | an offer is written if and only if its parent is still open and its key and hold are new |
| `EscrowEffects.InsertEffect` | apps/api/src/c2c/c2c.repository.ts:232-249 | it is added as asked; its parent is COUNTERED with a release queued, every other row stays |
| `EscrowEffects.CommitEffect` | apps/api/src/c2c/c2c.repository.ts:231-251 | the transaction writes unless it rolls back or may not; only a client that saw it commit is done |
| `EscrowEffects.RetryDelayDoubles` | apps/api/src/c2c/c2c.repository.ts:388-395 | the wait after a refused release is two seconds and doubles up to 1024 |
| `EscrowSafety.HoldsNeverLost` | apps/api/src/c2c/c2c.repository.ts:231-276 | every hold that a finished request obtained is on an offer or released, unless a lookup after the failed transaction or the compensating release itself failed |
| `EscrowSafety.HoldsKeptExact` | apps/api/src/c2c/c2c.repository.ts:249-276 | over every run every finished request's hold is on an offer or released throughout, if and only if no lookup or compensating release fails for a hold that is neither |
| `EscrowSafety.ReleasedWasAcknowledged` | apps/api/src/c2c/c2c.repository.ts:375-387 | RELEASED implies that the provider acknowledged it, even when workers outlive their lock |
| `EscrowSafety.ClosedOfferIsFinal` | apps/api/src/c2c/c2c.repository.ts:284-323 | an offer that left OPEN never changes again |
| `EscrowSafety.LiveHoldsStay` | apps/api/src/c2c/c2c.repository.ts:249-276 | with a provider that never answers twice with one reference, no hold of an open or accepted offer is ever released |
| `EscrowSafety.UnsafeStepExact` | apps/api/src/c2c/c2c.repository.ts:249-276 | from any safe state a step makes a live offer's hold released if and only if it is a compensating release of a hold in use by then, or the insertion of an offer whose hold was let go already |
| `EscrowCounterexample.SharedReferenceLosesHold` | apps/api/src/c2c/c2c.repository.ts:250-276 | with one key, one reference and two requests an open offer is left whose payment is no longer held |
| `EscrowCounterexample.LookupLosesHold` | apps/api/src/c2c/c2c.repository.ts:249-256 | the transaction fails, the lookup after it fails, and the payment stays held without an offer or a release |
| `EscrowLease.OneWorkerAtATime` | apps/api/src/c2c/c2c.repository.ts:361-374 | at most one worker acts on a release, in every run in which no worker marks a release that another one holds |
| `EscrowLease.LockStepExact` | apps/api/src/c2c/c2c.repository.ts:361-397 | a step breaks the workers' lock if and only if it is such a mark |
| `EscrowLease.TimelyWorkersAreHarmless` | apps/api/src/c2c/c2c.repository.ts:361-374 | workers that finish within their one-minute lock never do that |
| `EscrowLease.ReleasedIsFinal` | apps/api/src/c2c/c2c.repository.ts:375-400 | while workers finish within their lock a RELEASED row is never marked for retry |
| `EscrowLease.ReleasedStaysExact` | apps/api/src/c2c/c2c.repository.ts:375-400 | after any run at all a RELEASED row stays so exactly as long as no worker that was refused, or whose RELEASED write fails, marks it |
| `EscrowRepository.UndisturbedBatch` | apps/api/src/c2c/c2c.repository.ts:347-402 | left alone, a batch releases what the provider acknowledges and schedules the rest with their delay |
| `EscrowRepository.ProcessOneIsRun` | apps/api/src/c2c/c2c.repository.ts:360-398 | one turn of the worker's loop is a run of the protocol's claim, answer and mark steps |
| `EscrowRepository.SweepExact` | apps/api/src/c2c/c2c.repository.ts:404-422 | after a sweep no offer that had expired is still open, unless a full batch of earlier ones came first |
| `EscrowRepository.DueExact` | apps/api/src/c2c/c2c.repository.ts:349-358 | a release that may be claimed is passed over only for a full batch of older ones |
| `EscrowRepository.Repository.Insert` | apps/api/src/c2c/c2c.repository.ts:231-258 | the offer transaction counters the parent and inserts under both unique keys, or changes nothing |
| `EscrowRepository.Repository.AcceptOne` | apps/api/src/c2c/c2c.repository.ts:279-345 | the acceptance transaction equals the specification that `AcceptanceSettlesListing` speaks of |
| `EscrowRepository.Repository.QueueExpired` | apps/api/src/c2c/c2c.repository.ts:404-422 | expires the open offers that are due, earliest first within the limit, and queues their releases |
| `EscrowRepository.Repository.ProcessPaymentReleases` | apps/api/src/c2c/c2c.repository.ts:347-402 | expires offers, then turns the releases that are due, oldest first within the limit, as the batch of turns does, and returns exactly how many it claimed |
| `TokenFamilies.FamilyIsLinear` | apps/api/src/auth/auth.repository.ts:184-246 | in every reachable state a family is one line of successors with at most one usable token, whose hash its session remembers |
| `TokenFamilies.ReuseEndsFamily` | apps/api/src/auth/auth.repository.ts:180-218 | presenting a consumed token ends its family and session for good, rotations in flight included |
| `TokenFamilies.ClosedSessionStopsRotating` | apps/api/src/auth/auth.repository.ts:186-196 | after revocation or the original expiry some continuation adds a token to the family if and only if a rotation that had read its token in time can still claim it under a fresh hash, and then just one |
| `TokenFamilies.RevocationRace` | apps/api/src/auth/auth.repository.ts:281-298 | that one rotation does happen: read, revoke, then commit |
| `TokenFamilies.ClosedExact` | apps/api/src/auth/auth.repository.ts:250-263 | a session is revoked or expired if and only if no user is ever told again that it is active, in any continuation |
| `TokenFamilies.ReuseEndsSession` | apps/api/src/auth/auth.repository.ts:180-218 | after a consumed token was presented nobody is ever told again that its session is active |
| `TokenEffects.RotationEnds` | apps/api/src/auth/auth.repository.ts:178-218 | which of reused, invalid, rolled back and rotated a rotation ends with, for every read and every table it commits on |
| `TokenEffects.RotationEffect` | apps/api/src/auth/auth.repository.ts:202-233 | a rotation consumes the presented token and names its successor, of the same session and family, with the hash and expiry asked for; the session takes over the hash and keeps its own expiry; no other row changes |
| `TokenEffects.ReuseEffect` | apps/api/src/auth/auth.repository.ts:180-190 | reuse revokes the session and every token of the family that is not revoked yet, and nothing else |
| `TokenEffects.RevocationEffect` | apps/api/src/auth/auth.repository.ts:281-298 | an owner closes an active session, and then its tokens, and nothing else |
| `TokenEffects.RowsKept` | apps/api/src/auth/auth.repository.ts:202-233 | over every run a session keeps its user and expiry and a token its session, family, hash and expiry; no revocation or consumption is taken back |
| `AuthRepository.AuthDatabase.SignIn` | apps/api/src/auth/auth.repository.ts:127-154 | creates session and first token together, unless the hash is taken |
| `AuthRepository.AuthDatabase.RotateRefreshToken` | apps/api/src/auth/auth.repository.ts:156-248 | the rotation transaction equals its specification |
| `AuthRepository.AuthDatabase.RevokeSession` | apps/api/src/auth/auth.repository.ts:281-298 | closes an owned active session and revokes its tokens |
| `FreightAcceptance.SingleAcceptance` | apps/api/src/freight/freight.repository.ts:686-808 | over every run of uninterrupted operations there is at most one open and one accepted quote; a booking exists if and only if a quote is accepted if and only if the request is, and for good; its schedules add up to the quote |
| `FreightAcceptance.SchedulesAddUp` | apps/api/src/freight/freight.repository.ts:1323-1365 | schedules are non-negative, in sequence and add up to the total; the deposit is the least whole amount that reaches its percentage; the balance falls due at least a day later |
| `FreightAcceptance.BookingAddsUp` | apps/api/src/freight/freight.repository.ts:1323-1365 | however operations interleave, a booking's schedules are non-negative and add up to its quote's total |
| `FreightAcceptance.BookedAsAgreed` | apps/api/src/freight/freight.repository.ts:695-786 | however operations interleave, a booking is what its quote agreed to at a moment when that was still valid: confirmed if and only if on net terms, with the total due its terms later; in two rows if and only if a business account is on a deposit, the least that reaches its percentage at once and the rest its terms later, at least a day; else in full at acceptance |
| `FreightEffects.AcceptGoesThrough` | apps/api/src/freight/freight.repository.ts:686-727 | after any run a quote is accepted if and only if it is published, valid and the first, with credit if on net terms |
| `FreightEffects.AcceptEffect` | apps/api/src/freight/freight.repository.ts:728-801 | an uninterrupted acceptance books its quote as agreed from that moment, accepts quote and request, and changes no other quote |
| `FreightEffects.RevisionsInOrder` | apps/api/src/freight/freight.repository.ts:588-593 | however operations interleave the quotes of a request are its revisions 1, 2, 3 and so on |
| `FreightEffects.QuoteGoesThrough` | apps/api/src/freight/freight.repository.ts:571-580 | which quotes are refused, both directions |
| `FreightEffects.QuoteEffect` | apps/api/src/freight/freight.repository.ts:594-625 | a new quote is the next revision, a draft with the terms asked for; drafts and published quotes before it are SUPERSEDED, others stay |
| `FreightConfirmation.BookingConfirmedExact` | apps/api/src/billing/billing.service.ts:894-909 | however a booking came about and its invoice is then paid, refunded and credited: it is confirmed if and only if its quote is on net terms or a payment of its first schedule was captured |
| `FreightBilling.BookingOpensInvoice` | apps/api/src/freight/freight.repository.ts:733-777 | however the operations that led to a booking interleaved, its invoice is a start state of the billing results: unpaid, with non-negative schedules that sum to the accepted quote's total |
| `FreightBilling.InvoiceFollowsBooking` | apps/api/src/freight/freight.repository.ts:733-777 | the invoice is for the quote's total, due its terms later, with one unpaid row for each of the booking's |
| `FreightBilling.BookingNeverOvercharged` | apps/api/src/freight/freight.repository.ts:733-777 | however a booking came about and however its invoice is then paid, refunded and credited, paid plus credited never exceeds the accepted quote and the journal agrees |
| `FreightAcceptance.CancelledFinalExact` | apps/api/src/freight/freight.repository.ts:265-273 | over every run of interleaved reads and writes, a cancelled request stays cancelled in every continuation if and only if no valid draft or acceptable quote is left and no call in flight submits, estimates, publishes, accepts without a booking or adds a draft that can be published |
| `FreightAcceptance.CancelledSerialExact` | apps/api/src/freight/freight.repository.ts:265-273 | with nothing in flight that is exactly when no quote that is still valid was left open |
| `FreightCounterexample.CancelledRequestReopens` | apps/api/src/freight/freight.repository.ts:634-657 | publishing the draft that a cancelled request left open takes the request out of CANCELLED |
| `FreightCounterexample.SubmissionUndoesCancel` | apps/api/src/freight/freight.repository.ts:229-273 | a request without quotes, cancelled while its submission is in flight, becomes SUBMITTED |
| `FreightAcceptance.NeverTwoAccepted` | apps/api/src/freight/freight.repository.ts:690-693 | even with reads and writes interleaved two quotes are never both accepted and a booking is never replaced |
| `FreightAcceptance.WriteExact` | apps/api/src/freight/freight.repository.ts:592-684 | a write made on an older read keeps the quote and booking rules if and only if its condition still holds; creating and accepting always do |
| `FreightAcceptance.SoundExact` | apps/api/src/freight/freight.repository.ts:592-684 | over every run, at most one open quote and a booking exactly with an accepted quote and request hold throughout if and only if every write still meets its condition when it is made |
| `FreightCounterexample.PublishOvertaken` | apps/api/src/freight/freight.repository.ts:634-657 | a publication overtaken by a new revision leaves two open quotes |
| `FreightRepository.Repository.CreateNewQuote` | apps/api/src/freight/freight.repository.ts:565-632 | supersedes every open quote and adds the next revision, or refuses |
| `FreightRepository.Repository.PublishQuote` | apps/api/src/freight/freight.repository.ts:634-657 | equals its specification |
| `FreightRepository.Repository.DeclineQuote` | apps/api/src/freight/freight.repository.ts:676-684 | equals its specification |
| `FreightRepository.Repository.AcceptQuote` | apps/api/src/freight/freight.repository.ts:686-808 | equals the specification that `AcceptEffect` and `BookedAsAgreed` speak of, with the policy downgraded without a business account |
| `FreightRepository.Repository.CancelRequest` | apps/api/src/freight/freight.repository.ts:265-273 | equals its specification |
| `CanonicalJsonForm.CanonicalExact` | apps/api/src/optimization/deterministic-optimizer.service.ts:5-12 | printing is a canonical form, equal exactly for values equal up to key order at every depth, if and only if the key comparison tells different keys apart |
| `CanonicalJsonForm.PrintTellsApart` | apps/api/src/optimization/deterministic-optimizer.service.ts:5-12 | values that print alike are equal up to key order, whatever the comparison does |
| `CanonicalJsonForm.TiePrintsTwice` | apps/api/src/optimization/deterministic-optimizer.service.ts:8-9 | two keys that tie leave two such values that print differently |
| `CanonicalJsonParser.PrintRead` | apps/api/src/optimization/deterministic-optimizer.service.ts:5-12 | a parser reads a canonical print back to the value with its keys sorted |
| `CanonicalJsonParser.ValueRead` | apps/api/src/optimization/deterministic-optimizer.service.ts:6-11 | whatever follows a printed value, the parser reads it and stops right behind it |
| `Base32.RoundTrip` | apps/api/src/auth/mfa.service.ts:248-260 | decoding undoes encoding for every byte sequence, and the text has ceil(8n/5) letters |
| `Base32.ReencodeExact` | apps/api/src/auth/mfa.service.ts:248-260 | a text is the encoding of what it decodes to if and only if fewer than five digits are dropped, all of them zero |
| `Base32.EncodesNumber` | apps/api/src/auth/mfa.service.ts:248-254 | read as a number in base 32 the letters are the bytes read in base 256, times two for every digit that fills up the last letter |
| `Base32.EncodeBytes` | apps/api/src/auth/mfa.service.ts:248-254 | collecting digits byte by byte and cutting them in fives gives the encoding |
| `CheckDigits.BuiltIsValid` | apps/api/src/international-logistics/international-logistics.rules.ts:14-20 | every identifier that is built validates |
| `CheckDigits.ValidExact` | apps/api/src/international-logistics/international-logistics.rules.ts:22-26 | an identifier validates exactly when building from its own parts gives it |
| `CheckDigits.S10SumFormula` | apps/api/src/international-logistics/international-logistics.rules.ts:1-6 | the weights are 8, 6, 4, 2, 3, 5, 9 and 7, place by place |
| `CheckDigits.S10DigitFormula` | apps/api/src/international-logistics/international-logistics.rules.ts:7-11 | the check digit fills the sum up to a multiple of eleven, and is 5 or 0 where that takes eleven or ten |
| `CheckDigits.S10Example` | apps/api/src/international-logistics/international-logistics.rules.ts:14-26 | serial 47312482 gives RR473124829GB, which validates |
| `CheckDigits.S10OneDigitExact` | apps/api/src/international-logistics/international-logistics.rules.ts:3-12 | a one-digit change is missed exactly when the two sums are 0 and 6 modulo 11 |
| `CheckDigits.S10SwapExact` | apps/api/src/international-logistics/international-logistics.rules.ts:3-12 | so is the swap of two different neighbours |
| `CheckDigits.S10MissesADigit` | apps/api/src/international-logistics/international-logistics.rules.ts:3-12 | such a pair of serials exists |
| `CheckDigits.SsccNoticesDigit` | apps/api/src/international-logistics/international-logistics.rules.ts:28-41 | every one-digit change of a valid code, check digit included, makes it invalid |
| `CheckDigits.SsccSumFormula` | apps/api/src/international-logistics/international-logistics.rules.ts:28-37 | digits in odd places count three times and the others once |
| `CheckDigits.SsccFills` | apps/api/src/international-logistics/international-logistics.rules.ts:28-37 | the check digit fills that sum up to a multiple of ten |
| `CheckDigits.SsccSwapExact` | apps/api/src/international-logistics/international-logistics.rules.ts:28-41 | swapping two different neighbours, check digit included, is missed exactly when they differ by five |

## Left out

- Other tenants and other invoices: the modelled transactions only touch rows of their own tenant, and the billing model is the rows of one invoice.
- Isolation below a transaction: each `$transaction` is atomic, so stale reads under MySQL's repeatable read (for instance an offer inserted while another is accepted) are not captured.
- Idempotency-key validation and trimming, audit rows, outbox payloads, display numbers, tenancy checks: they change no row that a property speaks of.
- The insurance status that a payment updates, and the reads that `createPaymentSession` makes before it takes the lock: leaving the reads out allows more behaviours, not fewer.
- A second unique key on payment sessions, the provider's reference: a violation of it is the creator giving up.
- BillingService.BillingDatabase.ProcessSuccessfulPayment: does not write the freight booking of its invoice; `FreightConfirmation` adds that write to the same step.
- Invoices that checkout opens already paid: the ledger results are for invoices opened unpaid.
- A payment event whose handler dies stays PROCESSING; the model has that step and promises nothing about progress.
- BillingTheorems.RefundsWithinCapture: is for runs in which FAILED refunds stay FAILED; `RevivalExact` says for every step when it goes on to hold.
- BillingTheorems.SettlingNeverOverdraws: is for runs in which each new claim had room; `ClaimsFitExact` says that this is exactly when the claims fit, not that the code makes sure of it.
- BillingTheorems.LeaseHolds: is for runs of harmless steps, because nothing in the code enforces them; three runs show what happens otherwise.
- EscrowSafety.LiveHoldsStay: assumes a provider that answers with a new reference each time; `UnsafeStepExact` is the exact step condition without it.
- EscrowLease.ReleasedIsFinal: assumes workers that finish within their lock; `ReleasedStaysExact` is exact without it.
- A worker whose retry write fails as well: the row stays PROCESSING until the next claim, as after a worker that stops.
- EscrowRepository.Repository.ProcessPaymentReleases: takes every write to succeed; the failing RELEASED write is a step of the protocol.
- FreightAcceptance.SingleAcceptance: is for operations whose read and write are not interrupted; `SoundExact` is exact for all runs, and `NeverTwoAccepted` and `BookingAddsUp` hold in all of them.
- Base32.Decode: is defined on letters of the alphabet; the source turns any other character into stray digits, and only ever decodes its own output.
- CheckDigits.ValidS10: upper-cases ASCII letters only; the source's upper-casing also maps a few other characters, such as the dotless i.
- Lone surrogates in strings: a Dafny character is a Unicode scalar value, so text that is not well-formed UTF-16 is not represented.
- JSON values that JSON has no text for (undefined, NaN, negative zero): a number is represented by the text it prints as.
- Time within one checkout: all reservations of a checkout get one reading of the clock.
- Offers' publication windows, minimum quantities and carts' creation rules: single-branch checks before the modelled writes.
- The payment that `CommerceService.checkout` authorizes and voids around the transaction: it depends on the provider's idempotency, which the code does not show.
- Credit limits of business accounts: one inequality on a sum over other invoices; acceptance takes its outcome as an input.
- Listing moderation, shipment evidence, disputes and payouts of private sales: they come after the modelled protocol and touch none of its rows.
- `pick`: it moves ON_HAND to PICKED without ledger entries, so balance and ledger agree only without it.
- Lane recommendation: a filter and sort over given lanes, with scores by plain sums.
- Nothing of the original program was executed.
