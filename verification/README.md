# Order ledger engine: model and proofs

The repository turns an unreliable stream of courier and platform reports into stock movements and financial events
that must always balance. This project models that engine in Dafny, and the self-contained protocols around it, and
proves what they keep over every run.

| part | modules |
|---|---|
| order-driven stock: balances, movement logs, line statuses | `StockAccounts`, `StockFlows`, `Catalogue`, `OrderStock`, `StockRuns`, `StockDelivery`, `StockReturns`, `StockSettlement`, `StockService`, `OrderLines` |
| financial ledger and the outcome that drives it | `OrderLedger`, `CarrierOutcome` |
| recorded return conditions | `ReturnConditions`, `ReturnEntries`, `ReturnCoverage`, `ReturnStock`, `ReturnDesk`, `ReturnRuns`, `ReturnLosses`, `ReturnRetry`, `ReturnConfluence`, `ReturnService` |
| duplicate orders: clustering, and cancelling against dispatching | `DuplicateClustering`, `DuplicateReport`, `DuplicateReview` |
| local midnight and date filters | `CalendarDate` |
| resumable paged sync | `PagedSync` |

How the stock part reads: an inventory item is an `Account` (opening balance, balance, append-only log); every order
flow is a sequence of clamped movements on single accounts; a `Store` is all accounts and order lines. `Runs`
interleaves flows, single reservation movements and late marks, returns, catalogue and platform changes and outside
adjustments over any number of lines and items. Deliveries, releases and returns run in their order's transaction; a
reservation does not, and the global stock invariant (`StockRuns.StockInvariant`) holds however it is interleaved.
What ties a line to the logs is stated for that line alone, whatever the state of all others: its returns are booked
under its revisions so far over every run (`StockRuns.RunsStayNumbered`), and no delivery of it is booked before its
status says so over every run in which the line itself is not marked reserved after its delivery
(`StockRuns.RunsStayInStep`, `StockRuns.LateMarkUndoesDelivery`). The classes
(`OrderStockService`, `OrderLedgerService`, `OrderConditionService`, `OrderRows`, `ReviewDesk`, `SyncService`) update
their fields in place as the services do; each method is proved equal to a specification function, and the theorems are
about those functions.

Results worth knowing before changing the code:

- Delivering a line and recording what came back leaves each of its wholly reserved product items with the same
  balance as releasing it and recording the same (`ReturnConfluence.DeliveryAndReturnAgree`). Gifts and packaging are
  different: a delivery consumes them and a recorded return does not bring them back
  (`ReturnConfluence.ExtrasDoNotComeBack`). The item must be just one unit of the line: movement keys carry no role, so
  of an item that is both product and gift of a line only the first movement counts (`StockDelivery.SecondReservationIsDropped`, `StockDelivery.GiftOfSameItemIsDropped`).
- A cancellation does not settle everything. A dispatch whose reservation stops after its first movement leaves the line
  unmarked, and neither a failure reported by the courier nor a recorded return gives that stock back
  (`CarrierOutcome.FailureLeavesInterrupted`, `StockSettlement.CancellationLeavesInterrupted`). The exact condition, for
  releases and deliveries: a line ends without reservations if and only if it held nothing, was marked reserved or,
  delivered unmarked, held only items of its product (`StockSettlement.OrderSettlesExactly`). If the product loses the
  item before a delivery, the delivered line holds it for ever (`StockSettlement.InterruptionLeaks`,
  `StockSettlement.LeakPersists`). A line whose own reservations are made whole holds stock only while it is marked
  reserved (`StockSettlement.RunsStaySettled`).
- A delivery or release that falls between two movements of one reservation does not either: the later movement leaves
  stock reserved for a line that is already delivered or released (`StockSettlement.LateMovementHolds`,
  `StockSettlement.DeliveryBetweenMovements`). Over all runs such a line holds nothing exactly when its last delivery or
  release cleared it and no first movement took anything since (`StockSettlement.FinishedHoldsExactly`). If the
  reservation also marks the line late, the next failure calls a delivered line released, and the next delivery settles
  what it holds (`StockSettlement.NextFlowAfterLateMark`).
- Applying the same platform update twice changes nothing unless a new line is described twice in different words:
  creation keeps the first description, the next update the last (`OrderLines.ReplacedTwiceExactly`).
- A date range ending the day before a day its zone skips is refused, although all its days exist
  (`CalendarDate.DayBeforeSkippedIsRefused`); where a clock is turned back over midnight the filter also lets through
  part of the evening before (`CalendarDate.FoldedEveningPasses`). `CalendarDate.FilterIsByLocalDay` and
  `CalendarDate.TwoBoundsExactly` say when a filter is exact.
- The exclusion of cancelling and dispatching needs claims to take the lock
  (`DuplicateReview.UnlockedClaimBreaksExclusion`).

Where code and comments differ, the code is followed: src/ecommerce/constants/product-condition.ts:1-5 says that lost
and missing units create no stock movement, but for an undelivered line src/ecommerce/order-stock.util.ts:265-275 writes
them off on hand; src/ecommerce/order-stock.service.ts:355-358 speaks of items still reserved, but line 362 limits this
to lines already marked reserved.

## Model

| member | source | states |
|---|---|---|
| StockAccounts.ClampIsLargest | src/ecommerce/order-stock.util.ts:208-230 | the clamp is exactly the largest part of a delta that keeps the balance valid |
| StockAccounts.ReservationShape | src/ecommerce/order-stock.service.ts:410-421 | a line's net reservation on an item is never negative, stems from its one reservation row and is undone at most once |
| StockAccounts.ReservedIsShared | src/ecommerce/order-stock.service.ts:410-445 | reserved stock is the outside part plus the sum of all lines' net reservations; no line holds more than the bucket |
| StockAccounts.ReplaySums | src/ecommerce/order-stock.service.ts:481-503 | each bucket equals its start plus the logged deltas |
| StockAccounts.LogIsHistory | src/ecommerce/order-stock.service.ts:457-505 | keys never repeat and each row's resulting quantity is the running sum of its bucket, in a valid balance |
| StockAccounts.MoveKeepsLegal | src/ecommerce/order-stock.service.ts:448-518 | every movement an order flow asks for keeps the account legal; settling and releasing are never clamped |
| StockFlows.SettleClears | src/ecommerce/order-stock.service.ts:112-122 | settling takes back exactly the line's reservation, unclamped, under a fresh key, touching no other line |
| StockFlows.ReleaseClears | src/ecommerce/order-stock.service.ts:324-335 | the same for releasing |
| StockFlows.ReservationGuaranteesDelivery | src/ecommerce/order-stock.service.ts:112-130 | a first delivery deducts min(quantity, available + own reservation); with the quantity reserved exactly the quantity, leaving available unchanged |
| StockFlows.DeliverKeepsLegal | src/ecommerce/order-stock.service.ts:100-131 | delivery of a unit keeps the account legal, settles the item and touches only this line and its keys |
| StockFlows.ReconcileKeepsLegal | src/ecommerce/order-stock.service.ts:275-315 | reconciling keeps the account legal and all reservations, whatever its keys |
| StockFlows.ReconcileConverges | src/ecommerce/order-stock.service.ts:275-315 | for one account, a new revision moves both net returns toward the targets, never past, and reaches them iff the aimed balance is valid |
| StockFlows.DeliveryAndReturnConfluence | src/ecommerce/order-stock.util.ts:243-277 | for one item: deliver then return and release then return end in the same balance, neither clamped |
| Catalogue.PackagingOverrides | src/ecommerce/order-stock.util.ts:194-206 | a packaging rule applies iff it is the variant's own or a general one without own rule for its material, and as often as it is listed |
| Catalogue.ExpandOrderLine | src/ecommerce/order-stock.util.ts:83-133 | the loop over product, gift and packaging computes the expansion |
| Catalogue.ExpansionMeaning | src/ecommerce/order-stock.util.ts:83-133 | product, gift and packaging units of an item are quantity times what comes with one piece |
| Catalogue.ExpansionTidy | src/ecommerce/order-stock.util.ts:88-99 | units are positive and never repeat an item in a role |
| Catalogue.NothingConsumed | src/ecommerce/order-stock.util.ts:83-88 | a line without product or pieces consumes nothing |
| OrderStock.DeliverySettlesExactly | src/ecommerce/order-stock.service.ts:83-159 | a delivered line ends without reservations iff it was marked reserved or still contains all it holds; other lines keep theirs |
| OrderStock.ReleaseSettles | src/ecommerce/order-stock.service.ts:319-353 | releasing a reserved line clears it on every item, whatever its product became, and changes only reservations |
| OrderStock.OnlyUnitDelivers | src/ecommerce/order-stock.service.ts:100-131 | an item that is one unit of a line is delivered as that unit, whatever else the line contains |
| OrderStock.DeliveryIsGuaranteed | src/ecommerce/order-stock.service.ts:83-131 | whatever the state of other lines, delivery of a line in step with its log takes what reservation and free stock cover of each product or gift item |
| StockRuns.RunsKeepBooks | src/ecommerce/order-stock.service.ts:59-383 | over every run, also with single reservation movements at any time and late marks, accounts stay legal and logs only grow |
| StockRuns.StockInvariant | src/ecommerce/order-stock.service.ts:448-518 | at the end of every such run: nothing negative, reserved and damaged within on hand, buckets as sums of logs, exact histories, reserved stock shared out among the lines |
| StockRuns.ReservationAsSteps | src/ecommerce/order-stock.service.ts:59-76 | a whole reservation is a run of its movements and its mark, so those runs contain every interleaving of it |
| StockRuns.RunsStayNumbered | src/ecommerce/order-stock.service.ts:248-317 | over every run, however steps interleave, returns of a line are booked under its revisions so far |
| StockRuns.StepStaysInStep | src/ecommerce/order-stock.service.ts:59-383 | every step but a mark of the delivered line itself keeps deliveries of a line unbooked until its status says so |
| StockRuns.RunsStayInStep | src/ecommerce/order-stock.service.ts:59-383 | the same over every run without such a mark, whatever happens to other lines |
| StockRuns.LateMarkUndoesDelivery | src/ecommerce/order-stock.service.ts:74 | a mark that comes after a delivery leaves the status behind the log |
| StockDelivery.ReservationIsMade | src/ecommerce/order-stock.service.ts:62-76 | a line's first reservation takes min(quantity, available) of each product or gift item |
| StockDelivery.ReservationPassesBy | src/ecommerce/order-stock.service.ts:63 | a line without product or with a stock status is not reserved |
| StockDelivery.SecondReservationIsDropped | src/ecommerce/order-stock.service.ts:64-72 | of two reservations of one item for one line only the first that takes anything counts |
| StockDelivery.GiftOfSameItemIsDropped | src/ecommerce/order-stock.service.ts:123-130 | gift units of an item that is also product are taken iff its product units took nothing |
| StockDelivery.PackagingIsConsumed | src/ecommerce/order-stock.service.ts:101-111 | first delivery takes min(quantity, available) of packaging from on hand |
| StockDelivery.DueLineIsDelivered | src/ecommerce/order-stock.service.ts:86-158 | every other line ends delivered, each sole product or gift item deducted as far as reservation and free stock cover it |
| StockDelivery.OtherLinesAreNot | src/ecommerce/order-stock.service.ts:86-99 | a line without product, one delivered before, and an unreserved one first synced after the delivery are left alone |
| StockDelivery.LostItemIsDelivered | src/ecommerce/order-stock.service.ts:132-156 | of an item its product has lost, a reserved line's delivery takes exactly what it held |
| StockReturns.ReturnMovesToTargets | src/ecommerce/order-stock.service.ts:248-317 | a recorded return moves every item's net returns toward its target, never past, after the line's release |
| StockReturns.ReturnMeetsTargets | src/ecommerce/order-stock.service.ts:248-317 | all targets of a recorded return are met iff every aimed balance is valid |
| StockReturns.ReturnReachesTargets | src/ecommerce/order-stock.service.ts:248-317 | targets that shrink no item's usable part are all met whatever came before, and recording them again changes no account |
| StockReturns.ReturnKeepsOthers | src/ecommerce/order-stock.service.ts:248-317 | other lines keep what they hold and have sent back |
| StockService.OrderStockService.MoveStock | src/ecommerce/order-stock.service.ts:448-518 | a known key changes nothing and reports the first movement; otherwise the balance moves by the largest part of the delta that keeps it valid, the log grows and a lawful request keeps the account legal; other accounts stay |
| StockService.OrderStockService.ReserveOneLine | src/ecommerce/order-stock.service.ts:62-76 | one line's reservations and its status |
| StockService.OrderStockService.DeliverOneLine | src/ecommerce/order-stock.service.ts:86-158 | one line's delivery: units, then items no longer in its product; it ends delivered iff it is matched, not delivered before and, when without stock status, not first synced after the delivery; otherwise nothing changes |
| StockService.OrderStockService.ReleaseOneLine | src/ecommerce/order-stock.service.ts:319-353 | releasing current items and then orphans is releasing everything the line holds |
| StockService.OrderStockService.ReserveOrder | src/ecommerce/order-stock.service.ts:59-76 | all lines of the order in turn |
| StockService.OrderStockService.DeliverOrder | src/ecommerce/order-stock.service.ts:83-159 | all lines of the order in turn, each ending delivered or left as it is by the same rule |
| StockService.OrderStockService.ReleaseOrder | src/ecommerce/order-stock.service.ts:161-168 | all reserved lines of the order in turn |
| StockService.OrderStockService.ReconcileReturnTargets | src/ecommerce/order-stock.service.ts:248-317 | the whole reconciliation of a line, and whether it moved anything |
| StockService.OrderStockService.ReconcileItem | src/ecommerce/order-stock.service.ts:275-315 | under a new revision the net returns of the item move toward the target, never past, and meet it iff the aimed balance is valid; it reports whether anything changed |
| StockSettlement.RunsStaySettled | src/ecommerce/order-stock.service.ts:59-168 | over every run in which a line's own reservations are made whole it holds stock only while marked reserved |
| StockSettlement.ReleaseSettlesExactly | src/ecommerce/order-stock.service.ts:161-168 | a release leaves the line without reservations iff it was marked reserved or held nothing |
| StockSettlement.EachLineItsOwnFlow | src/ecommerce/order-stock.service.ts:83-168 | delivering or releasing an order does to each line what its own flow does alone |
| StockSettlement.OrderSettlesExactly | src/ecommerce/order-stock.service.ts:83-168 | a line ends without reservations iff it held nothing, was marked reserved or, delivered unmarked, held only items of its product |
| StockSettlement.CancellationLeavesInterrupted | src/ecommerce/order-stock.service.ts:164-166 | neither releasing the order nor recording a return settles what an interrupted reservation of the product holds |
| StockSettlement.InterruptionLeaks | src/ecommerce/order-stock.service.ts:359-362 | after a reservation movement of the product, a product change that drops the item and a delivery, the delivered line still holds it |
| StockSettlement.QuietRunHolds | src/ecommerce/order-stock.service.ts:59-168 | between its flows an unmarked line keeps its status, and of each item what it held plus what first movements of its reservation took |
| StockSettlement.LeakPersists | src/ecommerce/order-stock.service.ts:359-362 | what a line that is not marked reserved holds of an item stays until it is reserved, marked, delivered or removed |
| StockSettlement.DeliveredLeakPersists | src/ecommerce/order-stock.service.ts:359-362 | what a delivered line holds stays over every run without a late mark of it |
| StockSettlement.FinishedHoldsExactly | src/ecommerce/order-stock.service.ts:59-168 | over all runs a delivered or released line holds nothing iff its last delivery or release cleared it and no first movement took anything since |
| StockSettlement.LateMovementHolds | src/ecommerce/order-stock.service.ts:64-72 | a delivery or release between two movements of a reservation leaves stock held for the finished line, without any product change |
| StockSettlement.DeliveryBetweenMovements | src/ecommerce/order-stock.service.ts:64-72 | such an input for deliveries, with the exact amount left |
| StockSettlement.NextFlowAfterLateMark | src/ecommerce/order-stock.service.ts:74 | flows pass a delivered line by; after a late mark the next failure releases what it holds and calls it released, and the next delivery settles it without deducting again |
| OrderLines.OrderRows.ReplaceOrderLines | src/ecommerce/order-lines.util.ts:14-79 | delete, update in place and create compute the replaced rows |
| OrderLines.RowsSurvive | src/ecommerce/order-lines.util.ts:32-71 | a row disappears iff dropped without history; one that stays keeps id, status, condition, return links and, with a status, its product, and takes the rest from the last write about it |
| OrderLines.NewRows | src/ecommerce/order-lines.util.ts:47-78 | a line named for the first time becomes a row as first described, under a fresh id, without status, condition or return links |
| OrderLines.ReplacedTwiceExactly | src/ecommerce/order-lines.util.ts:47-78 | an update is idempotent iff no new line is described twice differently |
| OrderLines.UpdatedOrderSettles | src/ecommerce/order-lines.util.ts:65-71 | a reserved matched line survives every update, and delivering or releasing it afterwards settles it everywhere |
| OrderLedger.RecognizeSwitches | src/ecommerce/ecommerce-order-financial.service.ts:686-807 | the key look-ups book a recognition, a reinstatement or nothing by the last outcome alone |
| OrderLedger.ReverseSwitches | src/ecommerce/ecommerce-order-financial.service.ts:809-872 | a reversal is booked iff the order stands as delivered, with the recognized amounts |
| OrderLedger.SetLossReachesTarget | src/ecommerce/ecommerce-order-financial.service.ts:637-684 | booked loss meets the target unless a correction's random key was used before; other lines are untouched |
| OrderLedger.BookKeepsBooks | src/ecommerce/ecommerce-order-financial.service.ts:559-624 | every report keeps the ledger well booked, append-only, and decides the outcome |
| OrderLedger.LedgerAlternates | src/ecommerce/ecommerce.service.ts:77-83 | over every run outcomes alternate from one recognition; the delivered filter's sum is 0 or 1 and positive iff the last outcome is no reversal |
| OrderLedger.LedgerBalances | src/ecommerce/ecommerce-order-financial.service.ts:233-302 | profit is revenue less all costs; revenue and product cost are the recognized ones or 0; gift and packaging stay spent |
| OrderLedger.ShippingChargedOnce | src/ecommerce/ecommerce-order-financial.service.ts:770-806 | at most one event charges shipping, and both reports agree on it |
| OrderLedger.RunsBalance | src/expenses/courier-costs.service.ts:96-105 | the same for every run from an empty ledger |
| OrderLedger.LossesTelescope | src/ecommerce/ecommerce-order-financial.service.ts:637-684 | after any run a line's booked losses sum to the last loss set |
| OrderLedger.LossIsTakenFromProfit | src/ecommerce/ecommerce-order-financial.service.ts:665-683 | a line's losses take exactly their sum from profit |
| OrderLedger.SummaryTotals | src/ecommerce/ecommerce-order-financial.service.ts:248-276 | on every ledger each field of the summary is the sum of the events it is about, net profit that of all |
| OrderLedger.DamageIsLosses | src/ecommerce/ecommerce-order-financial.service.ts:248-276 | the summary's damage cost is the sum of what is booked for the lines |
| OrderLedger.DeliverySummary | src/ecommerce/ecommerce-order-financial.service.ts:686-807 | a first delivery adds collected, product, gift and packaging cost, and the courier's fee or else the customer's shipping, nothing if already charged, and profit their difference; a later one counts the recognized revenue and product cost again |
| OrderLedger.LossSummary | src/ecommerce/ecommerce-order-financial.service.ts:637-684 | setting a loss moves the summary's damage cost by target less what was booked, and profit by the negative |
| OrderLedger.OrderLedgerService.ApplyRevenueRecognition | src/ecommerce/ecommerce-order-financial.service.ts:686-807 | the order stands as delivered and repeats book nothing; a first recognition moves the summary by exactly the terms and the shipping that applies, a reinstatement by the recognized revenue and product cost |
| OrderLedger.OrderLedgerService.ApplyRevenueReversal | src/ecommerce/ecommerce-order-financial.service.ts:809-870 | the order does not stand as delivered; revenue and product cost go back to nothing and profit by their difference, every other cost stays spent; repeats book nothing |
| OrderLedger.OrderLedgerService.ApplyShippingLoss | src/ecommerce/ecommerce-order-financial.service.ts:879-928 | before any recognition a positive amount, the fee when known and otherwise the customer's shipping, ends up charged by exactly one event and taken from profit; the outcome stays |
| OrderLedger.OrderLedgerService.SetLineLoss | src/ecommerce/ecommerce-order-financial.service.ts:637-684 | with an unused random key the line's booked losses sum to the target and the summary moves by the difference; other lines and the outcome stay, and repeats book nothing |
| OrderLedger.OrderLedgerService.GetSummary | src/ecommerce/ecommerce-order-financial.service.ts:248-276 | the loop computes the summary: profit of all events, damage cost of the losses, and on a well-booked ledger the accounting identity |
| CarrierOutcome.LatestIsLast | src/ecommerce/order-status.util.ts:73-83 | the reduction finds a terminal event with no later one, or nothing iff there is none |
| CarrierOutcome.OutcomeIsChronological | src/ecommerce/order-status.util.ts:73-83 | with distinct times the outcome does not depend on the order events are read in |
| CarrierOutcome.OnlyTerminalsMatter | src/ecommerce/order-status.util.ts:76-79 | non-terminal events never change the outcome |
| CarrierOutcome.DisplayIsNotOutcome | src/ecommerce/order-status.util.ts:36-42 | the display status stays DELIVERED where the outcome is a later return |
| CarrierOutcome.DisplayIsMostAdvanced | src/ecommerce/order-status.util.ts:36-42 | the display status is the first type of the priority list that is present |
| CarrierOutcome.TimelineConverges | src/ecommerce/ecommerce-order-financial.service.ts:368-458 | whatever the arrival order, the state of stock and what happens to it in between, an undispatched order's revenue ends recognized iff its last terminal event is a delivery |
| CarrierOutcome.TimelineSettlesStock | src/ecommerce/ecommerce-order-financial.service.ts:164-221 | from its last sync on, also one that reserved first, each line stands as the last terminal event says: delivered, but for unreserved lines first synced after it, or released; it holds nothing iff the sync could clear it, and always, unless delivered without a product, when its reservations were made whole |
| CarrierOutcome.OrderFollowsLastReport | src/ecommerce/ecommerce-order-financial.service.ts:203-221 | over every run of timeline and courier syncs, losses and stock steps, ledger and lines follow the last report |
| CarrierOutcome.StockFollowsLedger | src/ecommerce/ecommerce-order-financial.service.ts:203-221 | after a sync the ledger stands as reported, and each line ends without reservations iff it held nothing, was marked reserved or, delivered unmarked, held only items of its product |
| CarrierOutcome.CourierStatusBooks | src/ecommerce/ecommerce-order-financial.service.ts:580-618 | cancelled, refused and returned parcels undo a delivery, those that travelled are charged their shipping, no other status but a delivery touches the ledger |
| CarrierOutcome.TimelineBooks | src/ecommerce/ecommerce-order-financial.service.ts:368-458 | failed deliveries and returns are charged their shipping, cancellations not; the order stands as delivered iff its outcome is a delivery |
| CarrierOutcome.FailureLeavesInterrupted | src/ecommerce/ecommerce.service.ts:1128-1136 | a failure reported after an interrupted reservation leaves its stock reserved |
| CarrierOutcome.ShipmentFollowsLastStatus | src/ecommerce/ecommerce-order-financial.service.ts:587-618 | a dispatched order's ledger and lines follow its courier's last terminal status, whatever reservations, product changes and costs come before and between |
| ReturnConditions.CheckSubmission | src/ecommerce/order-condition.service.ts:137-194 | the loop with totals and identities reports the first error |
| ReturnConditions.AcceptedExactly | src/ecommerce/order-condition.service.ts:137-194 | a submission passes iff it is sound, within every capacity and without repeated conditions |
| ReturnConditions.CapacityIs | src/ecommerce/order-condition.service.ts:152-190 | of a component as many may come back as the packs ordered contain, of the whole line its quantity |
| ReturnConditions.RefusedFor | src/ecommerce/order-condition.service.ts:112-194 | a refused submission is told a reason that holds: of its first bad row, or of the submission as a whole |
| ReturnEntries.EntriesAreCanonical | src/ecommerce/order-condition.service.ts:274-278 | the stored entries are what was asked for, strictly ascending |
| ReturnEntries.RetryIsRecognized | src/ecommerce/order-condition.service.ts:281-285 | entries compare equal iff the same was asked for in any order, also after cost changes |
| ReturnEntries.PermutationIsAccepted | src/ecommerce/order-condition.service.ts:148-194 | acceptance does not depend on the order of rows |
| ReturnCoverage.SharesAddUp | src/ecommerce/order-condition.service.ts:236-263 | a complete allocation splits exactly the line's price, by cost, by pieces or whole |
| ReturnCoverage.SharesAreProportional | src/ecommerce/order-condition.service.ts:230-263 | the price is split by purchase cost as soon as one is known, else by pieces, and by quantity for whole pieces |
| ReturnCoverage.SaleValuesAddUp | src/ecommerce/order-condition.service.ts:236-263 | the n rounded sale values add up to the price within n times 0.00005 |
| ReturnCoverage.CompleteExactly | src/ecommerce/order-condition.service.ts:303-308 | entries never exceed the ordered pieces and equal them iff the submission counts as complete |
| ReturnStock.CollectTargets | src/ecommerce/order-condition.service.ts:392-415 | the loops over entries and units compute the targets, old items at nothing |
| ReturnStock.TargetCounts | src/ecommerce/order-stock.util.ts:243-277 | an item's target is the one its good, damaged and lost pieces call for |
| ReturnStock.TargetByCondition | src/ecommerce/order-stock.util.ts:243-277 | a delivered line takes back its good, returned and damaged pieces, an undelivered one writes off lost and missing ones, and damaged pieces are damaged either way |
| ReturnStock.EveryPieceAccounted | src/ecommerce/order-condition.service.ts:199-223 | a complete allocation accounts for exactly the pieces delivery takes, item by item |
| ReturnDesk.RowsAreRecognized | src/ecommerce/order-condition.service.ts:279-302 | a snapshot recognizes its rows in any order, expecting any revision, also after costs changed |
| ReturnDesk.RowsOfOne | src/ecommerce/order-condition.service.ts:108-119 | a row is about the line it names |
| ReturnDesk.RowsOfBoth | src/ecommerce/order-condition.service.ts:108-119 | the rows of a line are those of the parts of a submission, one after the other |
| ReturnRetry.RetryChangesNothing | src/ecommerce/order-condition.service.ts:279-302 | once accepted, a submission sent again in any order, whole or for some lines, is accepted and leaves the whole desk as it is, whatever happened in between, also at another exchange rate and other prices |
| ReturnRuns.RecordIs | src/ecommerce/order-condition.service.ts:381-466 | rejection changes nothing; acceptance gives each changed line the next revision, its snapshot and a booked loss equal to it, and leaves every other line's row, snapshot, reservations and net returns |
| ReturnRuns.CommitMeetsTargets | src/ecommerce/order-condition.service.ts:391-422 | a recorded line's net returns meet its snapshot's targets iff every aimed balance is valid |
| ReturnLosses.EntriesLoss | src/ecommerce/order-condition.service.ts:309-319 | the loss: lost and missing pieces at their rounded purchase cost, damaged rows at the stated damage or else the same, good and returned ones nothing |
| ReturnLosses.PreparedExactly | src/ecommerce/order-condition.service.ts:279-346 | when an accepted submission is unchanged, in conflict, out of range or a new snapshot, and that snapshot's loss, entries, expected pieces and completeness |
| ReturnLosses.RecordedLoss | src/ecommerce/order-condition.service.ts:458-465 | once a submission took effect on a line, its booked losses sum to the loss of its rows |
| ReturnRuns.DeskStaysSound | src/ecommerce/order-condition.service.ts:458-465 | over every run, with any interleaving of reservations and any change of rate and prices, booked losses equal the current snapshots' and revisions only rise |
| ReturnRuns.DeskStaysInStep | src/ecommerce/order-condition.service.ts:381-466 | over every run without a late mark of the line, no delivery of it is booked before its status says so |
| ReturnRuns.AtMostOneTakesEffect | src/ecommerce/order-condition.service.ts:293-302 | of all submissions expecting one revision at most one changes the line |
| ReturnConfluence.DeliveryAndReturnAgree | src/ecommerce/order-condition.service.ts:391-422 | one complete submission recorded for a line delivered or released before is accepted either way with the same snapshot and loss, and leaves the same balance of each wholly reserved product item |
| ReturnConfluence.ExtrasDoNotComeBack | src/ecommerce/order-stock.util.ts:243-277 | of a gift or packaging item, what delivery took stays gone after a complete record, while a released line leaves it all on hand |
| ReturnService.OrderConditionService.RecordConditions | src/ecommerce/order-condition.service.ts:107-466 | prepare every line, then commit all of them, or report the first error; the service stays ready for the next |
| DuplicateClustering.MatchingIsSound | src/customers/duplicate-orders.util.ts:30-76 | line matching is symmetric and implies a shared product key |
| DuplicateClustering.MatchingDecides | src/customers/duplicate-orders.util.ts:49-76 | lines match exactly as the strongest identity both know says, down to their names |
| DuplicateClustering.SharedKeys | src/customers/duplicate-orders.util.ts:30-47 | lines share a key iff they agree on an identity, platform ids within one connection only |
| DuplicateClustering.GroupsPartition | src/customers/duplicate-orders.util.ts:103-122 | every order is in exactly one group |
| DuplicateClustering.GroupsAreFirstFit | src/customers/duplicate-orders.util.ts:104-121 | groups start with their earliest order, stay within its window, are linked by matches, and nobody could have joined an earlier group |
| DuplicateClustering.GroupsAreGrouping | src/customers/duplicate-orders.util.ts:103-122 | the loop's groups partition the orders, are linked and first-fit, and appear in the order of their main orders |
| DuplicateClustering.FirstFitIsUnique | src/customers/duplicate-orders.util.ts:85-128 | no other grouping has these properties |
| DuplicateClustering.GapsSplit | src/customers/duplicate-orders.util.ts:105-111 | a gap longer than the window splits one customer's grouping into those of both sides |
| DuplicateReport.KeysAreMembers | src/customers/duplicate-orders.util.ts:107-114 | testing the accumulated keys is testing every member |
| DuplicateReport.ClusterDuplicateOrders | src/customers/duplicate-orders.util.ts:85-128 | the loop over customers and open groups computes the report, by the caller's matching or by shared keys |
| DuplicateReport.ReportedClusters | src/customers/duplicate-orders.util.ts:123-125 | a cluster is a whole group of one customer with at least one duplicate |
| DuplicateReport.GroupsAreReported | src/customers/duplicate-orders.util.ts:123-125 | every group of a customer with a duplicate is reported |
| DuplicateReport.CustomersPartition | src/customers/duplicate-orders.util.ts:90-102 | each customer's groups partition exactly that customer's orders |
| DuplicateReport.ReportIgnoresOrder | src/customers/duplicate-orders.util.ts:90-102 | as a set, the report does not depend on the input order |
| DuplicateReport.LaterOrderKeepsClusters | src/customers/duplicate-orders.util.ts:85-128 | an order later than all of its customer's, wherever it is listed, leaves every reported cluster, at most adding itself at the end |
| DuplicateReport.GapSplitsReport | src/customers/duplicate-orders.util.ts:85-128 | a quiet period longer than the window splits the report into those of both sides |
| DuplicateReview.StepStaysSafe | src/customers/duplicate-orders.service.ts:139-296 | every step of every transaction, and everything between them, keeps the exclusion |
| DuplicateReview.CancelExcludesDispatch | src/ecommerce/ecommerce.service.ts:1028-1149 | from a fresh shop, over every interleaving, a cancelled duplicate is never pending or dispatched and no order has two dispatches in flight |
| DuplicateReview.SelectionPasses | src/customers/duplicate-orders.service.ts:151-171 | a selection passes iff each group keeps an order and each selected order is in a group |
| DuplicateReview.ConsideredExactly | src/customers/duplicate-orders.service.ts:349-394 | a review looks at the open, unreviewed orders of the same customers from seven days before to seven days after the selected ones |
| DuplicateReview.ReviewedGroup | src/customers/duplicate-orders.service.ts:379-420 | a group under review is of one customer and within a day of its main order |
| DuplicateReview.CancellationsAreGuarded | src/customers/duplicate-orders.service.ts:148-188 | a cancellation begins iff its selection passes and goes on iff none of its orders was sent |
| DuplicateReview.KeepingIsGuarded | src/customers/duplicate-orders.service.ts:269-280 | keeping begins iff the order is the main order of a group |
| DuplicateReview.ClaimsAreGuarded | src/ecommerce/ecommerce.service.ts:1028-1149 | a dispatch is claimed iff the order is open, not reviewed as cancelled and unsent, and only if its dispatch did not change meanwhile |
| DuplicateReview.DispatchEnds | src/ecommerce/ecommerce.service.ts:1112-1149 | a call that ends well leaves the order dispatched, one that fails failed if still pending, one that crashes pending |
| DuplicateReview.CancellationLeavesOne | src/customers/duplicate-orders.service.ts:153-218 | each selected order is reviewed as cancelled, and cancelled itself iff entered by hand or cancelled before; nothing else changes; it was in a group that keeps an unreviewed order, cancelled only if its platform did so meanwhile |
| DuplicateReview.KeepingRespectsReviews | src/customers/duplicate-orders.service.ts:281-292 | keeping decides exactly the undecided duplicates of the group |
| DuplicateReview.UnlockedClaimBreaksExclusion | src/customers/duplicate-review-lock.util.ts:3-9 | a claim with all its checks but without the lock lets both succeed exactly when the order is still claimable |
| DuplicateReview.ReviewDesk.CheckSelection | src/customers/duplicate-orders.service.ts:151-171 | every group keeps an order and every selected order is in one |
| DuplicateReview.ReviewDesk.CancelSelected | src/customers/duplicate-orders.service.ts:173-218 | all selected orders cancelled, or none if one was sent |
| DuplicateReview.ReviewDesk.KeepGroup | src/customers/duplicate-orders.service.ts:281-292 | undecided duplicates kept, and how many |
| CalendarDate.FindDateInZone | src/common/calendar-date.util.ts:47-81 | the loop computes the bisection |
| CalendarDate.BoundaryIsCrossing | src/common/calendar-date.util.ts:69-75 | in any zone the bisection ends where an earlier day turns into this one or a later one |
| CalendarDate.ExactWhenCrossedOnce | src/common/calendar-date.util.ts:67-75 | the boundary separates the days exactly iff the zone crosses into the day once |
| CalendarDate.FirstInstant | src/common/calendar-date.util.ts:47-81 | the first instant of the day, or a refusal iff the zone skips it |
| CalendarDate.UniversalDay | src/common/calendar-date.util.ts:47-81 | without offset a day starts at a multiple of 86400000 |
| CalendarDate.FilterIsByLocalDay | src/ecommerce/ecommerce.service.ts:2094-2106 | a filter passes exactly the instants whose local day is in range where its bounds' days are entered once, which one bound also needs; it is refused iff the zone jumps over such a day |
| CalendarDate.TwoBoundsExactly | src/ecommerce/ecommerce.service.ts:2094-2106 | with both bounds a filter is exact iff the instants of its days are one stretch lasting until just before the upper bound; an inverted range iff its bounds are inverted too |
| CalendarDate.FirstOfCrossing | src/common/calendar-date.util.ts:47-81 | where the day is entered once: its first instant, or a refusal iff the zone jumps over it |
| CalendarDate.DayBeforeSkippedIsRefused | src/ecommerce/ecommerce.service.ts:2102-2104 | a range before a skipped day is refused although its days exist |
| CalendarDate.FoldedEveningPasses | src/common/calendar-date.util.ts:71-75 | a clock turned back over midnight lets the evening before through |
| CalendarDate.RangeIsBetweenBounds | src/expenses/expense-date.util.ts:22-43 | a range of days and timestamps, their days entered once, holds exactly what lies between; inverted iff nothing does |
| PagedSync.SyncService.Sync | src/ecommerce/ecommerce-sync.service.ts:214-312 | one chunk of at most five pages with any failures |
| PagedSync.ChunkCovers | src/ecommerce/ecommerce-sync.service.ts:245-304 | a chunk completes its window with every page stored, or stops further on in the same window with all pages before the cursor stored |
| PagedSync.ChunkUpdates | src/ecommerce/ecommerce-sync.service.ts:245-304 | every order of the pages passed holds what the last of them reported; nothing but those and orders of the page at which it stopped is touched |
| PagedSync.FailureIsRecorded | src/ecommerce/ecommerce-sync.service.ts:245-312 | a chunk that stops short without recording a failure has used all its requests |
| PagedSync.UpsertIsIdempotent | src/ecommerce/ecommerce-sync.service.ts:393-418 | storing a page again changes nothing |
| PagedSync.WindowsTile | src/ecommerce/ecommerce-sync.service.ts:228-284 | over every run completed windows tile time and all that was reported for them is stored |
| PagedSync.ContentsFollow | src/ecommerce/ecommerce-sync.service.ts:393-418 | over every run an order nobody else wrote ends as completed windows reported it last, or unchanged, unless an open window has updated it already |
| PagedSync.WindowContents | src/ecommerce/ecommerce-sync.service.ts:245-284 | once a window completes, every order it reported and nobody else wrote meanwhile holds its last report |
| PagedSync.ChunksNeeded | src/ecommerce/ecommerce-sync.service.ts:246-304 | n pages take exactly n fifths failure-free chunks, rounded up |

## Left out

- OrderStock.Enabled: manual and purchasing adjustments are taken not to push reserved or damaged stock below what the order lines hold; the adjustment endpoint itself does not check this.
- StockRuns.RunsStayInStep: runs in which the line itself is marked reserved after its delivery are excluded, because that mark leaves the status behind the log (`StockRuns.LateMarkUndoesDelivery`); balances, logs, shares and revisions of such runs are covered by `StockRuns.StockInvariant` and `StockRuns.RunsStayNumbered`.
- StockService.OrderStockService.MoveStock: retries after write conflicts and the number of attempts are not modelled; a movement succeeds or the flow is interrupted. The incoming bucket, which no order flow touches, and locations are absent, so available stock is on hand less reserved less damaged.
- StockAccounts.MoveKeepsLegal: older returns booked against the order instead of the line, and the earlier way of recording a single condition, are not part of this model.
- OrderLines.StockLine: a matched variant that is deleted sets the line's product to none; the theorem about updates is about lines that keep theirs.
- OrderLedger.Terms: product, gift and packaging cost, currency conversion and the rates behind them are inputs; amounts are exact in ten-thousandths, so differences from rounding each stored column on its own do not appear.
- OrderLedger.LossesTelescope: assumes that random keys of corrections do not repeat; `OrderLedger.SetLossReachesTarget` says what happens if one does.
- CarrierOutcome.TimelineReport: which stored event supplies the courier fee is an input.
- ReturnConditions.Allocation: store ownership of products, return requests and their status, notes, non-integer and non-finite numbers and unknown conditions are not part of this model; the expected revisions of a line's rows are kept as a set.
- ReturnEntries.Before: entries are ordered by component and then condition; the original compares the joined text, another fixed total order of the same keys.
- ReturnConfluence.DeliveryAndReturnAgree: a pack without components is excluded: its delivery takes nothing, while its return is about the pack's own item. A submission about several lines is recorded line by line (`ReturnRuns.RecordIs`); the comparison is stated for a submission about one.
- DuplicateReport.ByTime: ids are numbers compared by size where the original compares text; platform texts are taken as already trimmed and in lower case.
- DuplicateReview.Considered: that looking back seven days preserves groups is not claimed, since a steady stream of orders can shift every later group; `DuplicateReport.GapSplitsReport` is the substitute.
- DuplicateReview.Step: notifications, events and labels, and the recorded main order of a cancellation, which may itself be cancelled in the same selection.
- CalendarDate.Zone: parsing of dates and the calendar arithmetic behind a local day; a zone is its offset at every instant.
- PagedSync.Provider: platforms are assumed to answer alike on every request for a window; the guard that lets one sync of a connection run at a time, customer counters and timeline events of stored orders are absent.
- Controllers, permissions, billing, courier and platform adapters, currency services, dashboards and reports other than the delivered filter, the summary and the shipping sum.
