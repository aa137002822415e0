# Store model

Dafny models of the stateful core of the store application: the inventory reservation saga, payments
and customer totals, broadcast deliveries, escalations, and the algorithms around messages, shipping,
the catalog, prices, the agent loop and exchange rates. `dafny verify dfyconfig.toml` checks
everything.

## How it is organised

Each stateful part is given twice. A machine (a `Step` function over a state value, and `Run` over a
list of events) fixes what one transaction, SQL statement or remote call does; the theorems are about
all its runs. A class in the form of the source changes fields in place, statement by statement, and
its methods are proved to do what the machine does, so the theorems hold of them.

- `Common` has optional values, results and sums over id lists.
- `Sheets` and `SheetService` are the stock sheet, its append-only movement ledger and the copy of the
  ledger this process holds.
- `Orders` is the saga machine. Its state is order rows, customers, replay table, sheet, and the job of
  the holder of the inventory lock with its next step. Payments and customer changes may come between
  any two steps, a crash or cancellation at any point, and every Sheets write may fail before or after
  it commits. `Reservation`, `Conservation`, `Coherence`, `Convergence`, `Progress`,
  `CreateConvergence`, `Retries`, `Cleanup`, `Payments` and `Tags` prove its properties, `Transactions`
  lists what each transaction writes; `OrderService` is the class form.
- `Broadcast`, `BroadcastFacts`, `BroadcastRecords` and `BroadcastService` are the delivery ledger under
  any number of concurrent senders; `BroadcastRecords` ties its rows to the calls made.
- `Escalations` and `EscalationService` are the escalation writers and the expiry batch.
- `Telegram`, `Shipping`, `ShippingQuotes`, `Catalog`, `Pricing`, `AgentLoop` and `Rates` are the
  algorithms. `ShippingFees`, `CatalogFacts`, `AgentTrace` and `RateReadings` say what their results mean
  in terms of the inputs alone.

## Hypotheses, and what was found false

- The ledger copy. `_update_stock` reads the ledger through a copy and reloads it only when asked.
  Exactly-once needs the copy to show the durable ledger whenever a mutation starts (`CoherentRun`).
  Every step keeps this except a write that commits and reports failure; the forced reload that follows
  restores it. If the reload fails as well, or the call is cancelled before it, it can be lost:
  `Coherence.LostReplyDeductsTwice` is a run of six steps after which one order has been deducted
  twice, either way, and `Coherence.SecondMovementExactly` says when a step moves an operation again.
  Payments, totals and proofs need no such hypothesis.
- The five minutes. A sender that stalls between its claim and its outbound mark can send twice,
  because the mark does not look whose claim it is. `Broadcast.AtMostOnce` assumes that live senders
  mark in time, `BroadcastFacts.SlowSenderSendsTwice` shows the run that breaks it, and
  `BroadcastFacts.RequeueBreaksExactly` when a requeueing lets some later run exceed the bound.
- Manual pauses. `mark_external_active` is documented to clear no protected local pause. Alone it does
  not; but `mark_external_escalation` turns a manual pause into an external one, which it then clears
  (`Escalations.ManualLastsExactly`).
- Escalation data. The dashboard may write `active` over a row that was escalated after it was read
  (`Escalations.WriteActiveRace`), leaving expiry data on an active row.
- Tier tags. `sync_purchase_tier_tags` derives two tags from the totals, and `add_tags` and `remove_tag`
  may write the same two. They agree with the totals throughout a run exactly when no such write gives
  an unearned one or takes an earned one (`Tags.TiersThroughoutExactly`); `Tags.VipWithoutOrders` is one
  that does. The next change of the totals repairs them (`Tags.StepSyncs`).
- The limit of three active unpaid orders is checked when an order is inserted. It is exceeded exactly
  by setting an order whose stock is still held back to pending or proof received while three others
  are active (`Retries.LimitPassedExactly`); `Retries.FourActiveOrders` is such a run.
- The expiry batch takes the earliest rows each time. While rows whose provider fails fill it, a row
  behind them is not resumed by any number of batches (`Escalations.FailingHeadStarves`), because a
  batch can take a row only when fewer rows than its limit come before it (`Escalations.TakenExactly`).
- A refused create. An attempt that meets a fault is refused even where an undisturbed one would
  reserve the order; exactly when is said by `CreateConvergence.CreatesConvergeToOne`.
- Message cuts. `_safe_cut_point` is documented never to cut after a dangling escape. It does when no
  safe position exists (`Telegram.CutInsidePairExactly`), as behind a marker that stays open
  (`Telegram.OpenSpanIsCut`). It also counts parentheses, which `escape_markdown` does not escape
  (`Telegram.EscapedBalancedExactly`).
- Whole thousands are printed as `1.000` and read back as one (`Rates.ThousandsMisread`), and so are
  whole thousands with commas (`RateReadings.EnglishThousandsMisread`).
- Rows without a SKU are one product when brand, name and category agree, unless one of these has a bar
  in it (`CatalogFacts.OneProductExactly`, `CatalogFacts.BarsCollide`).
- Across the discount threshold a larger order can cost less (`Pricing.ThresholdCostsLess`), and nowhere
  else (`Pricing.MoreCostsMore`).
- Two spellings of a parent SKU are one product in the catalog but not in orders
  (`Catalog.CasingHidesSize`); `Catalog.OrderLineExactly` says which orders find a row.
- The discount calculation would make totals negative beyond 100 percent (`Pricing.TotalSignExactly`);
  the settings endpoint refuses such percentages (`store/app/admin/settings.py:260-267`), and the other
  results on prices are about those it accepts.
- A percentage is read back from the amounts of an order. Below a subtotal of 100.00 there are fewer
  possible discounts than percentages, so some percentage is misread for every such subtotal
  (`Pricing.AllPercentsComeBackExactly`).
- The server's own handoff does not look whether one succeeded before. It repeats one only after a
  success without a payload (`AgentLoop.FinishRepeatsExactly`), which the store's tool never answers
  (`AgentLoop.HandoffNeverRepeats`).
- A pending order with a line the ledger request rejects can never be deleted or released
  (`Progress.DeleteCompletesExactly`, `Progress.StuckForever`). A line takes the SKU of the catalog row
  it names, and a row may have none (`Progress.StuckReached`). The cleanup job takes the twenty oldest
  orders each time, so twenty such orders keep it from every later one (`Cleanup.StuckOrdersStarve`).

## Model

| member | source | states |
|---|---|---|
| `Sheets.UpdateStockCases` | store/app/catalog/sheets.py:597-725 | With a coherent ledger copy a mutation either leaves sheet and ledger alone or moves every requested SKU and appends its rows; a recorded operation never moves anything again; coherence is lost exactly when the write commits and then reports failure |
| `Sheets.SucceedsWhenPossible` | store/app/catalog/sheets.py:644-686 | A fault-free new operation succeeds exactly when no SKU is listed twice, every requested SKU is listed, and for a deduction each of their rows is active with a price within one cent of the first line that carries one; and no stock goes below zero |
| `Sheets.FailureMeans` | store/app/catalog/sheets.py:644-686 | Its refusal names the problem: a SKU listed twice, one not listed, inactive, at a price off by more than a cent, or short of stock |
| `Sheets.TotalAddsUp` | store/app/catalog/sheets.py:583-594 | The quantity of a SKU is the sum over its lines |
| `Sheets.SkusInOrder` | store/app/catalog/sheets.py:583-594 | The requested SKUs stand in the order of their first lines |
| `Sheets.ReportedStockIsReal` | store/app/catalog/sheets.py:658-710 | What is reported and recorded of a SKU is true: the stock its row showed before, and the one it shows afterwards, moved by the sum of the lines and not negative |
| `Sheets.StockStaysNonNegative` | store/app/catalog/sheets.py:681-686 | No mutation makes a stock negative |
| `Sheets.UpdateStockIdempotent` | store/app/catalog/sheets.py:623-634 | Repeating a successful mutation changes nothing and returns the same stock map |
| `Sheets.ValidateExact` | store/app/catalog/sheets.py:550-580 | A recorded entry is accepted exactly when its rows are, in some order, the type, SKU and quantity of the rows the mutation itself writes |
| `Sheets.WrittenValidates` | store/app/catalog/sheets.py:550-580 | The rows a mutation writes are accepted when read back, with the stock it reported |
| `Sheets.RecordedExactly` | store/app/catalog/sheets.py:623-634 | An operation the copy shows moves nothing, and succeeds exactly when its rows are, in some order, those of this request |
| `Sheets.AppliedExactly` | store/app/catalog/sheets.py:746-768 | The forced reload answers applied exactly when the ledger has rows of the operation and they are those of this request, not applied exactly when it has none, and an error otherwise |
| `Sheets.RefusedExactly` | store/app/catalog/sheets.py:550-580 | Recorded rows are refused for their number first, then for a row that is not of the request, then for a SKU without a row |
| `Sheets.LostReplyIsReconciled` | store/app/catalog/sheets.py:746-768 | A mutation that committed but reported failure is recognised after a forced reload, and the state is then the one a reported success leaves |
| `Sheets.ReloadIsCoherent` | store/app/catalog/sheets.py:499-507 | Reading the ledger afresh makes the copy coherent and answers exactly whether the operation is recorded |
| `Sheets.OtherOperationsKept` | store/app/catalog/sheets.py:543-547 | A commit leaves the recorded rows of every other operation alone |
| `SheetService.BuildRequest` | store/app/catalog/sheets.py:583-594 | The loop adds up repeated SKUs and accepts exactly the items with a SKU and a positive quantity |
| `SheetService.ValidateExisting` | store/app/catalog/sheets.py:550-580 | The loop over recorded rows is the validation of the model, error by error |
| `SheetService.IndexRows` | store/app/catalog/sheets.py:644-651 | The loop reports a duplicate exactly when a SKU occurs twice and otherwise finds every row |
| `SheetService.WriteCells` | store/app/catalog/sheets.py:687-714 | The batch changes the named stock cells and no other |
| `SheetService.Spreadsheet.PrepareUpdates` | store/app/catalog/sheets.py:653-701 | The loop stops at the first problem, and otherwise prepares one cell update and one ledger row per SKU |
| `SheetService.Spreadsheet.UpdateStock` | store/app/catalog/sheets.py:597-725 | The whole new state of sheet, ledger and in-process copy, for every fault, equals the function the properties are proved about |
| `SheetService.Spreadsheet.MoveStock` | store/app/catalog/sheets.py:636-721 | The part after the ledger lookup: nothing on any problem, else one batch |
| `SheetService.Spreadsheet.OperationApplied` | store/app/catalog/sheets.py:746-768 | The forced reload and its answer |
| `Reservation.RunKeepsInv` | store/app/crm/orders.py:460-618 | In every state reachable by any interleaving of create, delete, release, payment, cancellation and crash with coherent mutations, each inventory status says exactly what the ledger records of the two operations, and the lock holder stands where its order allows |
| `Reservation.StepKeepsInv` | store/app/crm/orders.py:1100-1324 | Every single step keeps the agreement of status and ledger |
| `Conservation.RunConservesStock` | store/app/catalog/sheets.py:653-721 | Every row shows its initial stock less the quantities of the orders whose reserve is recorded and whose release is not; no stock is negative |
| `Conservation.SettledStock` | store/app/crm/orders.py:325-356 | With no order between two states, sheet stock plus the quantities of the reserved orders is the initial stock |
| `Transactions.CallsWrite` | store/app/crm/orders.py:325-378 | A Sheets call writes no row of the database; closing a create changes one pending row, to reserved or to failed and rejected; a release marks its row before stock is given back |
| `Transactions.UndoBegins` | store/app/crm/orders.py:1100-1150 | How a delete or release begins, by the stock status of the row |
| `Transactions.ReleaseWrites` | store/app/crm/orders.py:1290-1324 | The last transaction of a release changes the row of an order still unpaid and nothing else |
| `Transactions.DeleteWrites` | store/app/crm/orders.py:1157-1197 | The last transaction of a delete takes the row away, keeps its proof unless the replay table has it, and takes a counted order off its customer’s totals; nobody else changes |
| `Transactions.CustomersChange` | store/app/crm/customers.py:95-135 | Adding and tagging a customer changes that row alone; orders outlive their customer |
| `Coherence.CoherenceKept` | store/app/catalog/sheets.py:499-515 | From a coherent copy a step ends coherent exactly when it does not lose a reply |
| `Coherence.SettledRunIsCoherent` | store/app/crm/orders.py:325-356 | If every lost reply is followed by a readable verification or a restart, every mutation of the run starts coherent |
| `Coherence.LostReplyDeductsTwice` | store/app/crm/orders.py:302-341 | Otherwise it can fail: a concrete run that loses a reply and then cannot read the ledger, or is cancelled before it could, deducts one order twice and overwrites its ledger row |
| `Coherence.SecondMovementExactly` | store/app/catalog/sheets.py:623-714 | A step moves the stock of an operation that the durable ledger already holds exactly when the copy does not show it, nothing blocks the write, and the fault comes after the commit or not at all |
| `Coherence.RowsLandAtCopy` | store/app/catalog/sheets.py:696-721 | For any copy a write puts its ledger rows, in request order, right behind what the copy shows, and leaves every other ledger row where it is |
| `Convergence.RunMovesOnce` | store/app/crm/orders.py:285-291 | Over any run each operation moves each SKU at most once, so delete and release together restore an order at most once |
| `Convergence.DeletesConverge` | store/app/crm/orders.py:1100-1203 | Any interrupted, failed or completed releases and interrupted or failed deletes of an order, followed by a delete that removes it, leave the stock, ledger, rows, totals and replay table the model prescribes |
| `Convergence.ReleasesConverge` | store/app/crm/orders.py:1242-1324 | The same for releases among themselves |
| `Progress.RunKeepsReplayable` | store/app/catalog/sheets.py:550-580 | In every reachable state the rows an order recorded read back as its own request |
| `Progress.DeleteCompletesExactly` | store/app/crm/orders.py:1119-1155 | For a ready state, one uninterrupted delete removes the order exactly when it is not a pending order with an unusable line |
| `Progress.StuckForever` | store/app/catalog/sheets.py:583-594 | A pending order with an unusable line stays so through every run |
| `Progress.InsertedStuckExactly` | store/app/crm/orders.py:60-85 | A create leaves its new order stuck exactly when its lines cannot be read as a ledger request |
| `Progress.StuckReached` | store/app/crm/orders.py:60-85 | From an empty shop, an order for a catalog row without a SKU is stuck, whatever happens next |
| `Cleanup.NotSelected` | store/app/crm/orders.py:1206-1229 | Twenty older expired orders that cannot be released fill every selection of the cleanup job, so a later order is in none |
| `Cleanup.TakenExactly` | store/app/crm/orders.py:1206-1229 | The job can take an order exactly when fewer than twenty expired ones are older |
| `Cleanup.CandidateExactly` | store/app/crm/orders.py:1209-1220 | Expired are open orders whose payment failed or was rejected, and pending ones 48 hours after their reservation or creation |
| `Cleanup.StuckOrdersStarve` | store/app/crm/orders.py:1206-1239 | While they are there, no run of any events in which the job alone releases orders begins or completes a release of the order behind them |
| `Cleanup.TwentyStuck` | store/app/crm/orders.py:505-508 | From an empty shop a run reaches twenty such orders |
| `Progress.UninterruptedReleaseCompletes` | store/app/crm/orders.py:1242-1324 | One uninterrupted release of any other releasable order completes |
| `Progress.DeletesConvergeToOne` | store/app/crm/orders.py:1100-1203 | Crashed, cancelled and failed deletes and releases of an order, completed releases too, followed by a delete that completes leave exactly what one uninterrupted delete leaves |
| `Progress.ReleasesConvergeToOne` | store/app/crm/orders.py:1242-1324 | Crashed, cancelled and failed releases followed by one that completes leave exactly what one uninterrupted release leaves |
| `CreateConvergence.CreatesConverge` | store/app/crm/orders.py:460-618 | Whatever the attempts on one pending order went through, they leave it pending, reserved with its stock deducted once, or refused with no stock and no ledger row moved |
| `CreateConvergence.CreatesConvergeToOne` | store/app/crm/orders.py:460-618 | If interrupted attempts end with the order reserved, they leave exactly what one undisturbed create leaves; if refused, what one attempt leaves whose deduction failed before its commit, and that is what the undisturbed create leaves exactly when the sheet does not let the stock be deducted |
| `CreateConvergence.UninterruptedCreateCompletes` | store/app/crm/orders.py:572-618 | An uninterrupted attempt reserves the order exactly when its stock was already taken or can be, and otherwise marks it failed |
| `Retries.RetryAddsNothing` | store/app/crm/orders.py:462-504 | A repeated request, with any crashes, cancellations, payment proofs and other orders in between, adds no second row while the first is pending, however late, or was reserved less than half an hour ago |
| `Retries.SearchFindsExactly` | store/app/crm/orders.py:462-484 | The search answers an order exactly when it is the newest of the customer’s with the same items and the same payment method, city, address, carrier, fulfilment, zone, agency and fee that is unpaid or awaits its proof and is pending or was created at most 1800 seconds ago; and nothing exactly when there is none |
| `Retries.OtherRequestInserts` | store/app/crm/orders.py:462-570 | A request that differs in one of these from every open order of a customer below the limit inserts its new row, field by field, and nothing else |
| `Retries.FourthRequestRefused` | store/app/crm/orders.py:505-508 | With three active unpaid orders it changes nothing |
| `Retries.LimitPassedExactly` | store/app/crm/orders.py:505-508 | From at most three active unpaid orders a step passes three exactly when it is a payment update that reopens one of the customer’s orders whose stock is still held, while three others are active |
| `Retries.RunKeepsLimitExactly` | store/app/crm/orders.py:505-508 | A run that starts within the limit stays within it throughout exactly when none of its steps is such a reopening |
| `Retries.FourActiveOrders` | store/app/crm/orders.py:884-1042 | The limit is checked at insertion only: a run from an empty shop pays an order, opens three more and sets the first back to pending, and the customer has four |
| `Payments.RunKeepsPayments` | store/app/crm/orders.py:884-1042 | In every reachable state, whatever the ledger copy shows and whoever wrote tags, customer totals are the count and spend of the counted orders (merchandise where the row has it, the total on older rows), the flag follows the payment status of updated orders with a customer, no proof hash or reference key occurs twice among orders and replay table, and a paid order is outside reserved stock only once a delete has begun |
| `Payments.SpentIsMerchandise` | store/app/crm/orders.py:173-179 | In every run from an empty shop a customer’s total spent is the sum of the merchandise amounts the counted orders were requested with, whatever their delivery fees |
| `Payments.PayAcceptedExactly` | store/app/crm/orders.py:884-1042 | An update is accepted exactly when the order exists, its stock is reserved or of old for a paid status, and its proof, if any, meets a pending order and is new by hash and by key; then status, proof and flag are these, otherwise nothing changes |
| `Payments.ClampsNeverBite` | store/app/crm/customers.py:159-169 | In such states GREATEST(..., 0) never changes a value |
| `Payments.SyncTagsFits` | store/app/crm/customers.py:172-201 | After a sync the two tier tags match the thresholds and every other tag is kept |
| `Tags.StepSyncs` | store/app/crm/orders.py:645-654 | Any step but a write of tags either leaves a customer as it was or leaves tier tags that match the totals, whatever the tags were before |
| `Tags.TiersStepExactly` | store/app/crm/customers.py:95-135 | From matching tier tags a step leaves them matching exactly when it does not write tags that miss an earned one or contain an unearned one |
| `Tags.TiersThroughoutExactly` | store/app/crm/customers.py:172-201 | The tier tags match the totals throughout a run exactly when no write of tags is such |
| `Tags.AddKeepsTiersExactly` | store/app/crm/customers.py:95-114 | Adding tags keeps the tier tags matching exactly when it adds no tier tag that is not earned |
| `Tags.RemoveKeepsTiersExactly` | store/app/crm/customers.py:117-135 | Removing a tag keeps them matching exactly when it is no tier tag that is earned |
| `Tags.VipWithoutOrders` | store/app/ai/tools/customers.py:9-12 | It does happen: a customer without orders is tagged vip |
| `Payments.PayKeepsProofs` | store/app/crm/orders.py:898-927 | An accepted proof repeats no hash or key of another order or of the replay table |
| `Payments.DropKeepsProofs` | store/app/crm/orders.py:1174-1192 | Deleting an order moves its proof into the replay table, and the insert never meets a conflict |
| `Payments.CleanupNeverUndoesPaid` | store/app/crm/orders.py:1242-1324 | In every run, whatever the ledger copy shows, the cleanup job works on unpaid orders only, and its final payment recheck never fails |
| `Payments.NeverPaidAfterRelease` | store/app/crm/orders.py:941-963 | Once a release has begun no run of any events makes the order paid, brings its stock status back or revives a deleted row |
| `OrderService.DriveIsARun` | store/app/crm/orders.py:293-312 | Every call, with others running in its pauses and cancelled or crashed at any of them, is a run of the machine |
| `OrderService.CallsKeepTheBooks` | store/app/crm/orders.py:884-1324 | So after any history and any call the totals, flags and proofs hold, whatever the ledger copy shows |
| `OrderService.CallsKeepAgreement` | store/app/crm/orders.py:460-1324 | And the agreement of status and ledger, when the mutations started coherent |
| `OrderService.OperationTextsDiffer` | store/app/crm/orders.py:285-291 | No two operations share a ledger id |
| `OrderService.SyncTierTags` | store/app/crm/customers.py:172-201 | The tag loops compute the synced customer |
| `OrderService.OrderStore.AddTags` | store/app/crm/customers.py:95-114 | The tags stored are the old and the new ones, each once in order of first appearance; nothing else changes |
| `OrderService.OrderStore.RemoveTag` | store/app/crm/customers.py:117-135 | The tags stored are the old ones but the target, each once; nothing else changes |
| `OrderService.OrderStore.ApplyPaidCustomerUpdates` | store/app/crm/orders.py:645-648 | Increment and sync of one customer, nobody else |
| `OrderService.OrderStore.RevertPaidCustomerUpdates` | store/app/crm/orders.py:651-654 | Decrement and sync of one customer, nobody else |
| `OrderService.OrderStore.UpdateOrderPaymentStatus` | store/app/crm/orders.py:884-1042 | The whole new state, and exactly when the update is accepted, refused or a replay |
| `OrderService.OrderStore.DeleteOrder` | store/app/crm/orders.py:1100-1203 | The whole state after the call for every script of pauses and faults; done exactly when the row was there and is gone, with stock given back or not |
| `OrderService.OrderStore.ReleaseInventoryReservation` | store/app/crm/orders.py:1242-1324 | The same for a release; done exactly when the order is released, and then it is rejected or failed |
| `OrderService.OrderStore.CreateOrder` | store/app/crm/orders.py:460-618 | The same for the locked section; refused exactly by a missing customer or the limit, returned exactly when reserved; the order is new exactly when no open one has the same items and the same eight delivery fields |
| `OrderService.OrderStore.FindRepeated` | store/app/crm/orders.py:462-499 | The newest open order with the same items and the same eight delivery fields, if there is one |
| `OrderService.OrderStore.DeductOrderInventory` | store/app/crm/orders.py:325-340 | Deduct, and on a reported failure let the ledger decide |
| `OrderService.OrderStore.RestoreOrderInventory` | store/app/crm/orders.py:343-356 | Restore, and on a reported failure let the ledger decide |
| `OrderService.OrderStore.MarkInventoryReservationFailed` | store/app/crm/orders.py:359-378 | A pending order becomes failed, and rejected if unpaid |
| `OrderService.OrderStore.DropRow` | store/app/crm/orders.py:1157-1197 | Totals reverted, proof kept, row gone, in one transaction |
| `Broadcast.AtMostOnce` | store/app/broadcast/sender.py:96-151 | In every run of any number of senders, stale recovery, resets, retries and crashes in which live senders mark within five minutes of their claim, no recipient is reached more often than once plus once per confirmed retry |
| `Broadcast.StepKeepsInv` | store/app/broadcast/sender.py:255-323 | Every step keeps the bound, the dating of claims, and that a pending row has no outbound mark |
| `BroadcastFacts.SlowSenderSendsTwice` | store/app/broadcast/sender.py:106-113 | Without the timing hypothesis it fails: a concrete run reaches one recipient twice with no retry |
| `BroadcastFacts.RequeueBreaksExactly` | store/app/broadcast/sender.py:255-269 | After requeueing, some run in which every later requeueing is in time reaches the recipient too often, exactly when the row is stale and unmarked, a live sender still holds it, and the sends made and to come are all that were allowed |
| `BroadcastFacts.AutomaticRequeueIsSafe` | store/app/broadcast/api.py:106-117 | Without an operator only sends that never started or that Meta refused for certain are requeued, and then no more was sent than operators confirmed |
| `BroadcastFacts.SentForever` | store/app/broadcast/sender.py:120-128 | A sent delivery stays sent |
| `BroadcastFacts.AudienceIsFixed` | store/app/broadcast/sender.py:219-252 | Once seeded, no run with any resets and seedings changes the recipients |
| `BroadcastFacts.CountsAddUp` | store/app/broadcast/sender.py:326-343 | The five counts add up to the ledger |
| `BroadcastFacts.FinalStatusMeans` | store/app/broadcast/sender.py:153-156 | The stored outcome exactly: sent when every delivery is sent or pending, failed when none is sent and one is neither sent nor pending |
| `BroadcastFacts.CompleteMeansAllSent` | store/app/broadcast/sender.py:96-160 | A sender that found nothing left and counts with nothing requeued in between stores sent exactly when every delivery is sent |
| `BroadcastFacts.PendingShrinks` | store/app/broadcast/sender.py:284-323 | While nothing is requeued the pending rows only go down |
| `BroadcastRecords.StatusMeansCall` | store/app/broadcast/sender.py:96-151 | In every run, timely or not, a sent delivery had a call that Meta accepted, one failed for certain had a call that Meta refused, and an ambiguous one a call that ended ambiguous |
| `BroadcastRecords.CompleteMeansAllAccepted` | store/app/broadcast/sender.py:96-160 | So a broadcast stored as sent by a sender that found nothing left, with nothing requeued in between, had an accepted call for every recipient |
| `BroadcastRecords.RecordedExactly` | store/app/broadcast/sender.py:120-151 | A written record of a row in sending leaves it sent exactly when the call was accepted, unknown exactly when it was ambiguous and failed otherwise, with the known-failure note exactly for a certain refusal; it changes no other row and no other field |
| `BroadcastRecords.CountersTell` | store/app/broadcast/sender.py:106-151 | The counters of a row are the calls made for the recipient that were not refused for certain, and the retries an operator confirmed |
| `BroadcastRecords.AtMostOneCall` | store/app/broadcast/sender.py:96-151 | At most once, in calls: when live senders mark within 300 seconds of their claim, the calls to Meta for a recipient that were not refused for certain are at most one more than the confirmed retries |
| `BroadcastRecords.ResetExactly` | store/app/broadcast/api.py:93-133 | A reset puts certain refusals back to pending, claims older than 300 seconds back to pending or, with a mark, to unknown, and changes no other row |
| `BroadcastService.BroadcastStore.ExecuteBroadcast` | store/app/broadcast/sender.py:37-187 | The run ends while others go on without requeueing, and whichever of its statements raises, before its commit or after it; only a draft or scheduled broadcast is taken; one that raised is stored as failed; a finished one has nothing pending, and sent means that every delivery is sent and that Meta accepted a call for every recipient |
| `BroadcastService.BroadcastStore.SendAll` | store/app/broadcast/sender.py:96-151 | The send loop terminates with the pending rows as measure: with nothing pending, or given up and stored as failed |
| `BroadcastService.BroadcastStore.Deliver` | store/app/broadcast/sender.py:100-151 | The steps a claimed delivery goes through, exactly: marked, sent unless marking raised, recorded, and recorded again as an exception when recording a success raised |
| `BroadcastService.BroadcastStore.StoreOutcome` | store/app/broadcast/sender.py:153-187 | Sent is stored exactly when every delivery was sent at the count, and still is at the end; if counting or storing raises, even after the commit, the broadcast is stored as failed |
| `BroadcastService.BroadcastStore.ClaimNextDelivery` | store/app/broadcast/sender.py:284-323 | Claims an eligible pending row, fails ineligible ones on the way, and answers nothing only when nothing is pending; a statement that raises after its commit leaves its row claimed |
| `BroadcastService.BroadcastStore.RecordOutcome` | store/app/broadcast/sender.py:120-151 | On a row still being sent: sent for an accepted call, unknown for an ambiguous one, failed with its note otherwise; any other row stays; and what a failing write leads to |
| `BroadcastService.BroadcastStore.DeliveryCounts` | store/app/broadcast/sender.py:326-343 | The counts of the five statuses |
| `BroadcastService.BroadcastStore.SeedDeliveryLedger` | store/app/broadcast/sender.py:219-252 | The audience is added once, new rows pending and old ones kept; a later seeding, or one that is rolled back, changes no delivery |
| `BroadcastService.BroadcastStore.RecoverStale` | store/app/broadcast/sender.py:255-281 | Two bulk updates and how many rows each changed |
| `BroadcastService.BroadcastStore.ResetBroadcast` | store/app/broadcast/api.py:93-133 | Draft again, with the sent deliveries counted, and what becomes of each row |
| `BroadcastService.BroadcastStore.RetryDelivery` | store/app/broadcast/api.py:136-156 | Only an ambiguous delivery is retried |
| `Escalations.NormalizeMinutes` | store/app/crm/escalations.py:46-57 | The timeout is 0 or five minutes to a week, and the given value exactly when that is one of these |
| `Escalations.EscalatesExactly` | store/app/crm/escalations.py:60-110 | An automatic escalation is accepted exactly of customers without a block or somebody else’s pause; it then expires 60 v seconds from now for a setting v of 5 to 10080, never for 0, and after 10800 seconds for any other or unreadable setting |
| `Escalations.LastsExactly` | store/app/crm/escalations.py:60-414 | Over every run in which nobody repeats it and no administrator touches the customer, the escalation lasts, unchanged, exactly until an expiry step of this row, at or after that instant, whose provider agrees |
| `Escalations.DueFromThenOn` | store/app/crm/escalations.py:315-330 | From that instant on, and not before, the row is among the due ones while the escalation lasts |
| `Escalations.GuardsAgree` | store/app/crm/escalations.py:361-414 | Under the row lock the quick check and both SQL guards agree, so the last guard never fails |
| `Escalations.SkipReasons` | store/app/crm/escalations.py:477-489 | A customer is passed over for the first reason that applies |
| `Escalations.RunKeepsRows` | store/app/crm/escalations.py:71-273 | In every run of the module’s writers source, start and expiry exist only on escalated rows, and an expiry only on automatic ones, five minutes to a week after their start |
| `Escalations.WriteActiveExactly` | store/app/admin/settings.py:1212-1218 | The dashboard write of an active state keeps this exactly when the row carries no escalation data |
| `Escalations.WriteActiveRace` | store/app/admin/settings.py:1133-1225 | It fails when the customer is escalated between the read and the write |
| `Escalations.AutomaticEnds` | store/app/crm/escalations.py:188-217 | A step ends an automatic escalation only if an administrator takes it or it has expired |
| `Escalations.AutomaticEndsOnTime` | store/app/crm/escalations.py:361-414 | Over a run without administrators: if the escalation is gone, some expiry step came at or after its time |
| `Escalations.PausesUntouched` | store/app/crm/escalations.py:71-110 | Automatic and expiry steps never alter another pause |
| `Escalations.BlockedForever` | store/app/crm/escalations.py:249-273 | A blocked customer is unchanged by every run without an administrator |
| `Escalations.ManualLastsExactly` | store/app/crm/escalations.py:146-217 | Without administrators a manual pause lasts exactly until the provider mirrors a pause of its own |
| `Escalations.MirrorLiftsManualPause` | store/app/crm/escalations.py:188-217 | Mirroring active alone lifts no manual pause; after a mirrored pause it does |
| `Escalations.BatchProgress` | store/app/crm/escalations.py:306-352 | With willing providers a batch takes exactly its limit off the due rows |
| `Escalations.BatchStandsExactly` | store/app/crm/escalations.py:306-352 | A batch changes nothing exactly when every row it takes fails with its provider |
| `Escalations.TakenExactly` | store/app/crm/escalations.py:315-330 | A batch can take a due row exactly when fewer due rows than its limit expire before it |
| `Escalations.FailingHeadStarves` | store/app/crm/escalations.py:306-352 | While enough earlier rows to fill every batch are expired, unlocked and failing with their provider, no run of batches and other customers’ steps changes the row behind them |
| `Escalations.AlwaysBehind` | store/app/crm/escalations.py:306-352 | Two customers and batches of one: the second stays due and escalated however many batches run |
| `EscalationService.CustomerStore.EscalateAutomatically` | store/app/crm/escalations.py:71-110 | Success exactly as the guard says, and the new row with the expiry its setting prescribes; otherwise nothing changes |
| `EscalationService.CustomerStore.MarkExternalEscalation` | store/app/crm/escalations.py:146-185 | The three CASEs keep an automatic escalation as it is |
| `EscalationService.CustomerStore.MarkExternalActive` | store/app/crm/escalations.py:188-217 | Only an unpaused or externally paused customer becomes active |
| `EscalationService.CustomerStore.ReactivateLocked` | store/app/crm/escalations.py:361-442 | Reactivated exactly when due and the provider agrees, else unchanged with the reason |
| `EscalationService.CustomerStore.ReactivateIfExpired` | store/app/crm/escalations.py:276-303 | A stale copy may only skip; the locked row decides |
| `EscalationService.CustomerStore.SelectExpired` | store/app/crm/escalations.py:315-330 | The earliest due rows up to the limit, none locked by others |
| `EscalationService.CustomerStore.ProcessExpired` | store/app/crm/escalations.py:306-352 | The batch clears exactly the chosen rows whose provider agrees, skips none, and counts both kinds |
| `Telegram.SafeCutPoint` | store/app/admin/telegram_sender.py:66-106 | The scan finds the last safe position before the preferred one, or the preferred one |
| `Telegram.LastSafe` | store/app/admin/telegram_sender.py:84-104 | The last position up to n right after a plain character with all markers closed, or 0 |
| `Telegram.CutExactly` | store/app/admin/telegram_sender.py:66-106 | The window ends at the last newline within the limit, or at the limit when there is none; the cut is the last safe position of the window, or its end when it has none |
| `Telegram.PlainCutExactly` | store/app/admin/telegram_sender.py:79-106 | So a text without markers is cut exactly at that newline |
| `Telegram.SplitMessage` | store/app/admin/telegram_sender.py:37-63 | The loop terminates and yields the pieces of the text, none for a blank one |
| `Telegram.PiecesFit` | store/app/admin/telegram_sender.py:55-63 | Every chunk fits the limit |
| `Telegram.PiecesJoin` | store/app/admin/telegram_sender.py:55-63 | The text is the chunks in order with newlines and nothing else between them |
| `Telegram.EmptyChunksExactly` | store/app/admin/telegram_sender.py:57-60 | A chunk is empty exactly when it is the first and the text was cut inside its leading newlines |
| `Telegram.ChunksBalanced` | store/app/admin/telegram_sender.py:37-106 | If the text is balanced and every cut found a balanced position, every chunk is balanced, the unchecked last one included |
| `Telegram.CutInsidePairExactly` | store/app/admin/telegram_sender.py:66-106 | A cut is outside every escape pair exactly when a safe position was found or the preferred one is outside |
| `Telegram.EscapedPairsAreCut` | store/app/admin/telegram_sender.py:66-106 | A text of escaped characters only is cut at the limit, inside a pair exactly when the limit is odd |
| `Telegram.OpenSpanIsCut` | store/app/admin/telegram_sender.py:66-106 | Behind an open marker such a text is cut inside a pair exactly when the limit is even, as the limit of 4096 is |
| `Telegram.EscapeMarkdown` | store/app/admin/telegram_sender.py:26-34 | The replacements one after another escape each special character once |
| `Telegram.EscapeIsUndone` | store/app/admin/telegram_sender.py:26-34 | Escaping is undone by reading and leaves no dangling backslash |
| `Telegram.EscapeIsSafe` | store/app/admin/telegram_sender.py:26-34 | No escaped marker is active whatever follows; parentheses are not escaped |
| `Telegram.EscapedBalancedExactly` | store/app/admin/telegram_sender.py:26-106 | An escaped text is balanced for the scan exactly when its parentheses match in number |
| `Shipping.CollapseIdempotent` | store/app/shipping.py:240-246 | Cleaning a cleaned text changes nothing |
| `ShippingFees.CollapseJoinsWords` | store/app/shipping.py:240-246 | Cleaning keeps the words of a text and puts one space between them |
| `ShippingFees.PolicyAcceptedExactly` | store/app/shipping.py:28-212 | A policy is accepted exactly when every text has 1 to 100 characters once cleaned and every fee is between 0 and 100000.00, no two home cities, no two destinations and no two zones of one city share a key, every zone stands in a home city, and no destination shares a key with one |
| `ShippingFees.QuoteMeans` | store/app/shipping.py:55-141 | Under an accepted policy, for every customer: no quote without a city; in a home city the fee of the zone that goes by the key, or what is missing; elsewhere the MRW fee of the destination for MRW, the Zoom fee for Zoom, or what is missing |
| `Shipping.CleanAliasesExactly` | store/app/shipping.py:224-237 | Aliases are accepted exactly when each is a text, and no key is lost or added |
| `Shipping.NormalizeExactly` | store/app/shipping.py:144-212 | A list is accepted exactly when every entry is well formed, no two share a key and none is a home city where that is forbidden |
| `Shipping.NormalizeIdempotent` | store/app/shipping.py:28-52 | Normalising a normalised policy changes nothing |
| `Shipping.NormalizedIsDisjoint` | store/app/shipping.py:28-52 | Home cities, zones of a city and destinations share no keys, and no home city is a destination |
| `Shipping.MatchInCity` | store/app/shipping.py:102-107 | Filtering zones by city and matching the name is finding the pair of keys |
| `ShippingQuotes.QuoteUnchanged` | store/app/shipping.py:55-141 | Whether there is a quote, and its status, fee and matched place, survive any rearrangement of cities, zones, destinations and aliases |
| `ShippingQuotes.NormalizeSame` | store/app/shipping.py:144-212 | A rearranged list is accepted when the first is and comes out rearranged the same way |
| `ShippingQuotes.NormalizeAliases` | store/app/shipping.py:224-237 | The loop with its set of seen keys computes the cleaned aliases |
| `ShippingQuotes.NormalizeList` | store/app/shipping.py:144-212 | The loop of the three list normalisers, with its sets of keys, computes the normalised list and its first error; of one entry a bad fee comes last |
| `Catalog.ConfirmDerived` | store/app/catalog/sheets.py:378-398 | Collecting candidates and keeping confirmed families maps each SKU of a confirmed family to the first spelling of its base |
| `CatalogFacts.DerivedExactly` | store/app/catalog/sheets.py:378-398 | A SKU gets a derived product exactly when its row names no parent, it ends in the row’s one size, and its base has two SKUs and two sizes; the product is spelled as the first such row spells it |
| `Catalog.FamilyStaysTogether` | store/app/catalog/sheets.py:378-398 | A family is confirmed as a whole under one base and grouped as a whole |
| `Catalog.GroupProducts` | store/app/catalog/sheets.py:261-321 | Each group holds the rows of its key in order, with their stock, sizes, prices and first SKU per size |
| `Catalog.GroupsPartition` | store/app/catalog/sheets.py:272-321 | Each row is a variant of exactly one group, as often as the catalog lists it |
| `CatalogFacts.OneProductExactly` | store/app/catalog/sheets.py:364-375 | Two rows without bars in their texts are variants of one product exactly when they are ordered under one SKU up to case, or have no SKU and the same brand, name and category up to case |
| `CatalogFacts.BarsCollide` | store/app/catalog/sheets.py:371-375 | With bars it fails: two different products without a SKU share a key |
| `CatalogFacts.GroupShows` | store/app/catalog/sheets.py:281-321 | A product shows the sizes and prices of its rows, and the SKU its first row is ordered under |
| `CatalogFacts.SizeSkusExactly` | store/app/catalog/sheets.py:320-322 | A size is offered under the SKU of the first row that has both |
| `Catalog.GroupStockAddsUp` | store/app/catalog/sheets.py:296 | Group stocks add up to the sum of max(stock, 0) |
| `Catalog.SinglePriceExactly` | store/app/catalog/sheets.py:325-333 | One price is left exactly when all variants cost the same |
| `Catalog.PriceSummary` | store/app/catalog/sheets.py:325-333 | Lowest, highest, and the single price exactly when prices agree |
| `Catalog.ResolveStaysExactly` | store/app/crm/orders.py:182-244 | In a consistently cased group, ordering its SKU in any of its sizes yields a row in that size, of that group exactly when no other group lists the SKU as its own first |
| `Catalog.NothingStolen` | store/app/crm/orders.py:190-200 | Without a SKU clash no other group does |
| `Catalog.ResolveFindsExactly` | store/app/crm/orders.py:182-244 | For any SKU, name and size a row is found exactly when some row of that size carries the SKU, is ordered under it in that spelling, or has the name |
| `CatalogFacts.ResolvesExactly` | store/app/crm/orders.py:182-244 | A line gets the first row in its size that has the SKU; if there is none the first whose parent it is, then the first whose base it is, then the first by name; and nothing when no row answers |
| `Catalog.OrderLineExactly` | store/app/crm/orders.py:182-244 | For every group, however spelled, ordering its SKU: when a row is found, and when it is a row of the group |
| `Catalog.CatalogLines` | store/app/crm/orders.py:182-244 | Both hold of the products as the catalog groups them, with the product SKUs it derives from suffixes |
| `Catalog.CasingHidesSize` | store/app/crm/orders.py:201-244 | Two rows with their own names and two spellings of one parent: the second size is not found under the SKU and name the product is listed with |
| `Pricing.DiscountFits` | store/app/crm/orders.py:116-134 | For every percentage the settings accept the discount is between nothing and the subtotal |
| `Pricing.DiscountExactly` | store/app/crm/orders.py:116-134 | Only a subtotal above the threshold is reduced, by the cents nearest to its percentage; at the threshold and below the customer pays the subtotal |
| `Pricing.MoreCostsMore` | store/app/crm/orders.py:116-134 | A larger order never costs less, except across the threshold |
| `Pricing.ThresholdCostsLess` | store/app/crm/orders.py:116-134 | Across the threshold one cent more can cost 9.99 less |
| `Pricing.TotalSignExactly` | store/app/crm/orders.py:116-134 | An applied discount of any percentage leaves a total of at least zero below, and a negative one beyond, the point where the excess over 100 percent comes to half a cent |
| `Pricing.AmountsComeBack` | store/app/crm/orders.py:137-170 | Subtotal, discount and merchandise total come back exactly from a created order, also without the stored merchandise total |
| `Pricing.PercentComesBack` | store/app/crm/orders.py:137-170 | The recovered percentage is within 50 / subtotal in cents plus half a basis point, and equal from a subtotal of 100.00 on |
| `Pricing.AllPercentsComeBackExactly` | store/app/crm/orders.py:116-170 | Every percentage the settings accept comes back from an order exactly when its subtotal is at least 100.00 |
| `Pricing.OrderDetail.Hydrate` | store/app/crm/orders.py:137-170 | The fields filled in, and that a second call changes nothing |
| `AgentLoop.TurnKeeps` | store/app/ai/runner.py:129-219 | Whatever model, tools and providers answer: at most the allowed rounds, no tool outside the allowlist, no single-use tool again once it succeeded, no order on a proof turn, log and history aligned, escalated exactly when the tool ran and said so |
| `AgentTrace.TurnFollows` | store/app/ai/runner.py:129-219 | A turn makes the first call of each reply of the model, one a round, and ends at the first reply without calls or when the rounds are used up; it counts as a fallback exactly when another provider, or none, had to answer |
| `AgentTrace.ToolsRunExactly` | store/app/ai/runner.py:137-173 | The tools that run are exactly those called that are allowed, create no order on a proof turn, and have not succeeded before if they may only once; a call that does not run gets an error or the earlier result |
| `AgentTrace.TurnCollects` | store/app/ai/runner.py:174-202 | Buttons, catalog, image and handoff are the last result of their tool, the target is the last one named, and a handoff is requested exactly when some tool of the turn asked for one |
| `AgentTrace.RequiredHandoffIsMade` | store/app/ai/runner.py:220-239 | When the customer must be handed over and no tool did, the turn ends with one more call of the handoff tool; otherwise the server adds nothing |
| `AgentLoop.FinishRepeatsExactly` | store/app/ai/runner.py:220-239 | The required handoff keeps to the allowlist, and repeats a handoff exactly when one succeeded without a payload |
| `AgentLoop.HandoffNeverRepeats` | store/app/ai/tools/messaging.py:102-165 | With a handoff tool that answers only errors and handoffs, no turn repeats a single-use tool that succeeded, the required handoff included |
| `AgentLoop.HandoffRepeats` | store/app/ai/runner.py:220-239 | With a tool that succeeds without a payload a turn runs the handoff twice |
| `AgentLoop.Run` | store/app/ai/runner.py:129-239 | The while loop computes the state the properties are proved about |
| `Rates.PrintedRateComesBackExactly` | store/app/exchange_rates.py:84-127 | Printing a rate and reading it back gives the rounded rate exactly when it has cents or is below a thousand |
| `Rates.ThousandsMisread` | store/app/exchange_rates.py:84-109 | Whole thousands read back as thousandths, or not at all from a million on |
| `RateReadings.EnglishRead` | store/app/exchange_rates.py:84-109 | A rate with commas between thousands and two digits behind a point is read as it is meant |
| `RateReadings.EnglishThousandsMisread` | store/app/exchange_rates.py:98-104 | Whole thousands with commas read as thousandths, or not at all from a million on |
| `RateReadings.TokenFound` | store/app/exchange_rates.py:94-97 | The number read is the first one in the text, with the minus right before it |
| `RateReadings.SettingExactly` | store/app/exchange_rates.py:112-118 | A setting is refused exactly when it reads as a number that is not positive, emptied exactly when it reads as none, and otherwise stored without needless zeros |
| `Rates.RoundIsHalfUp` | store/app/exchange_rates.py:122 | Rounding is to the nearest cent, ties away from zero |
| `Rates.NormalizeSettles` | store/app/exchange_rates.py:112-118 | Normalising a positive rate keeps its value, and again changes nothing |

## Left out

- Google Sheets, PostgreSQL, Meta, Kommo and the language model: their answers are parameters; a batch
  write is one atomic change of stock and ledger, an SQL statement one atomic step, an advisory lock
  mutual exclusion.
- Manual edits of the sheet and other processes that write the ledger: a single store process is
  assumed, as its configuration states.
- Timestamps and formatting of ledger rows, creation and header repair of the ledger worksheet, cells
  that are not numbers, and stock mutations without an operation id, which no caller makes.
- The checks of `create_order` before its lock: item normalisation against the live catalog, required
  fields and shipping. The locked section is taken with normalised items and amounts that are not
  negative; the amount of a discount up to 100 percent is (`Pricing.DiscountFits`).
- Columns of orders that are not read by the modelled code (shipping updates, tracking, notes). In the
  saga a release may begin on any order; which orders the cleanup job picks is in `Cleanup` alone.
- Tag normalisation: tags are taken as already normalised, and idempotence of tag slugs is not claimed.
  Who may write tags is not modelled: a write of any list may come at any time.
- Progress.DeleteCompletesExactly: starts from a state with a coherent ledger copy and a free lock, and
  says nothing about how long others hold the lock.
- Progress.DeletesConvergeToOne, and its siblings for releases and creates: between the attempts on
  the order nothing else happens; what others do meanwhile is covered by the invariants of all runs.
  Deletes may mix with releases; attempts to create an order stand alone, since one that reserves
  stock before a delete leaves two more ledger rows than the delete by itself.
- Broadcast: the order in which pending rows are claimed, rows locked by a concurrent claim, template
  parameters and the owner's notification.
- BroadcastService.BroadcastStore.ExecuteBroadcast: termination is stated for others that requeue
  nothing; with requeueing the loop may go on as long as rows come back. The update in its exception
  handler always succeeds; one that fails is the machine's `Crash`.
- Escalations: provider synchronisation is one answer per customer, the chat reset after a
  reactivation always succeeds, and `channel` and `last_active` are not modelled.
- Telegram: sending the chunks. White space and digits outside ASCII, here and in `Shipping` and `Rates`.
- Shipping: the shape checks of the raw policy (objects, lists, currency), rounding of fees to cents,
  messages and the list of available zones in an answer. Comparison keys are any function of the text.
- Catalog: parsing of sheet cells, sorting of groups, variants and sizes, and the descriptive fields
  of a group. Lower-casing and the size-suffix pattern are any functions, the latter never matching
  the empty SKU.
- Pricing: binary floating point; rounding is any rounding to the nearest.
- AgentLoop: prompts, message texts, token usage, the turn timeout, and exceptions of the tool executor.
- Rates.NormalizeSettles: rates of more than 28 significant digits, which the decimal context rounds,
  are not modelled; nor is the sign of a rate that rounds to minus zero.
- Data retention, which deletes old deliveries and clears proof texts and addresses of old orders.
- Analytics, dashboards, vision, transcription, the Kommo jobs, the Meta inbox and the
  checkout sessions.
