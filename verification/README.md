# Verification of the inventory ledger

This project models the part of an inventory back end that turns one stock movement into several redundant
records, and proves that the records keep saying the same thing.

A movement of a product at a location changes its balance row, its moving average, its FIFO cost layers, the
balances and costs of its lots, and the custody of its serial numbers. Manual movements, state changes, imports,
physical counts, kit operations and the transfer protocol between warehouses all write this way. The reconciliation
service states what the records must agree on. The project proves that every run of every writer keeps its report
empty, and names the few operations for which that would not hold.

Beside the ledger it covers the audit hash chain with its canonical JSON, the CSV files of product imports, the
payment state machine, the completeness check of product variants, the rules of the kit catalogue, and the quantity
policy.

## How the model is laid out

Each transaction runs on a view of the tables and commits it whole or leaves them as they were. A table is a sequence
whose positions are the identifiers, so ordering by creation time and identifier is ordering by position; amounts are
the scaled integers the code computes with. The loops are methods; each is proved equal to a function on values, and
the properties are proved of the functions.

| Area | Effects on values | Invariants and theorems | Loops and tables |
|---|---|---|---|
| cost layers | `Fifo` | `FifoInvariants`, `FifoSteps`, `FifoRuns`, `FifoValues`, `FifoTheorems`, `FifoReversal`, `FifoKitLines`, `FifoCosts`, `FifoExactness`, `FifoTransit`, `FifoMeaning`, `FifoReversalMeaning`, `FifoCases` | `FifoProjection` |
| lots | `Lots` | `LotInvariants`, `LotSteps`, `LotTheorems`, `LotTransfers`, `LotReturns`, `LotVoids`, `LotMeaning`, `LotReversalMeaning` | `LotProjection` |
| serials | `Serials` | `SerialInvariants`, `SerialTheorems`, `SerialMeaning` | `SerialProjection` |
| balances and writers | `Balances`, `Ledgers`, `Stock`, `Writers`, `Transfers` | `TransferSteps`, `TransferLifecycle`, `TransferReceiving`, `TransferTheorems`, `TransferRetries`, `TransferExactness`, `ReceiptExactness`, `TransferAcceptance`, `OtherProducts`, `TransferTables`, `TransferCosts`, `TransferMeaning`, `ReceiptMeaning`, `WriterAgreement`, `WriterMeaning`, `ImportMeaning`, `KitTheorems`, `KitExactness`, `Runs`, `KeyReuse`, `WorldRetries`, `WorldCases`, `TransferCases`, `TrackingCases` | `WriterLoops`, `Reconciliation`, `InventoryDatabase` |
| audit log | `Json`, `Audit` | `JsonTheorems`, `AuditTheorems` | `Audit` |
| others | `Csv`, `Payments`, `Variants`, `KitCatalogue`, `Quantity` | `CsvTheorems`, `PaymentTheorems`, `PaymentMeaning`, `VariantTheorems`, `KitCatalogue`, `Quantity`, `QuantityMeaning` | `Csv`, `PaymentRepository`, `Variants` |

`Outcomes`, `Sums`, `Rounding`, `Text`, `TextMeaning`, `Selection`, `Movements` and `Site` hold what they share.
The modules named `…Meaning` say what an operation does in the terms of its request and of the rows before and after,
without the functions that compute it.

## What the code does that a reader might not expect

Each of these is proved, with the exact condition where the code falls short.

- Manual damage of serialised units moves them to the damaged state but takes them off the balance, so the serial
  table and the balance part ways (`Runs.DamageBreaksAgreement`, `TrackingCases.DamageIsNotFollowed`).
- A manual return of serialised units is always rejected: a unit that left stock has no location, and the movement
  demands its own (`SerialTheorems.ReturnIsRejected`).
- A kit operation calls neither lot nor serial tracking. The catalogue refuses tracked components when a kit is
  configured, but a component without movements may be put under tracking afterwards, and a component may itself
  become a kit (`KitCatalogue.TrackingOfComponents`, `KitCatalogue.NestingOfKits`, `KitCatalogue.RulesAreOutlived`).
  A kit that is itself a variant takes over lot tracking and quantity policy when its parent is updated, and the update
  does not look at variants (`KitCatalogue.KitsStayUntracked`, `KitCatalogue.VariantKitIsTracked`).
  What a parent's update gives its variants is not checked against their movements or serial numbers either
  (`KitCatalogue.MovedKeepSettings`, `KitCatalogue.SerialsStayWhole`).
  A kit operation on a tracked component breaks agreement (`WriterAgreement.TrackedComponentBreaks`,
  `KitTheorems.TrackedKitBreaks`, `TrackingCases.LotIsNotFollowed`).
- A void of a lot-tracked sale does not look at earlier returns: by itself it keeps what each lot gets back within
  what it gave exactly when every lot it gives back to still has room for it (`LotVoids.VoidIsExact`). The cost layers,
  which run first, refuse a void of the whole sale once anything came back (`LotVoids.WholeVoidKeepsLots`), and the
  sales code refuses it before that.
- The audit verifier does not notice that a beginning of the log is gone (`AuditTheorems.DeletionShows`).
- Rounding a quantity up can carry it past twelve whole digits, and it then no longer parses
  (`Quantity.RoundingUpMayOverflow`).
- Stock alone does not decide whether goods may leave: the running average is rounded, so taking some of a product may
  push its remaining inventory value below zero, and the valuation then rejects the movement
  (`FifoExactness.ExitIsExact`). Two small entries of a cheap product are enough (`WorldCases.CrumbsAreRefused`).
- Layers in transit carry the age of the goods and are drawn on like any other. An ordinary exit at the destination
  takes them first when they are the oldest there (`FifoTransit.ExitDrainsTransit`), and reporting those goods missing is
  then refused although the balance still has them in transit (`TransferCases.MissingIsRefused`). A receipt without
  discrepancies is not affected (`TransferAcceptance.GoodReceiptSucceeds`).
- What an assembly built can be taken apart again exactly when the components are held in the tenant's currency
  (`KitExactness.DisassemblyIsAccepted`): a component bought in another currency can go into a kit but not come out
  (`TrackingCases.ApartIsRefused`).
- The order of webhooks matters exactly when a decline and another event are reported of an unconfirmed payment
  (`PaymentTheorems.OrderIsImmaterial`).
- A restoration of cost layers does not filter by product, and its allocation key is unique on movement and layer. It is
  accepted exactly when the line has that much out and the allocations it gives back to, taken in order, lie on
  different layers of its own product (`FifoReversal.ReversalIsExact`). A line that sold one product in one movement at a
  location, and a return that names its sale, meet this (`FifoReversal.LoneSaleReverses`). A derived kit sells its
  components under one line in the order of the kit, and a void gives them back in the order of their products: where
  the two orders differ the first component to come back is refused (`FifoKitLines.EarlierComponentBlocks`,
  `FifoCases.KitVoidIsRefused`).
- The keys of variants join values with a separator that values may contain. Acceptance means completeness exactly when
  the variants select listed values (`VariantTheorems.AcceptanceIsExact`); with a separator inside a value a variant of
  values nobody listed is accepted (`VariantTheorems.SeparatorInsideIsAccepted`).

## Model

| member | source | states |
|---|---|---|
| Rounding.DivideRoundedIsNearest | src/inventory/inventory-fifo-valuation.ts:89-97 | the division gives the nearest integer, a tie away from zero |
| Rounding.NearestIsUnique | src/inventory/inventory-fifo-valuation.ts:89-97 | at most one integer is nearest, so that description determines the division |
| Rounding.QuantityValueIsOdd | src/inventory/inventory-fifo-valuation.ts:99-101 | a quantity and its reversal are valued oppositely |
| Rounding.QuantityValueError | src/inventory/inventory-fifo-valuation.ts:99-101 | one valuation is off by at most half a cost unit |
| Selection.SelectIsExact | src/inventory/inventory-fifo-valuation.ts:270-281 | an ordered query lists each eligible row once, nothing else, by rank and then by creation |
| FifoProjection.DrawInOrder | src/inventory/inventory-fifo-valuation.ts:271-302 | the consumption loop over layers equals the function the theorems speak of |
| FifoProjection.ConsumeFromLayers | src/inventory/inventory-fifo-valuation.ts:248-303 | consumption succeeds exactly when the eligible layers hold enough, and leaves each layer at its closed form |
| FifoTheorems.ConsumptionIsGreedy | src/inventory/inventory-fifo-valuation.ts:248-303 | layers are drained oldest first, each touched only once all before it are empty; the total is exact; the only failure is too little stock |
| FifoProjection.RestoreInOrder | src/inventory/inventory-fifo-valuation.ts:333-380 | the restoration loop equals the function the theorems speak of |
| FifoProjection.RestoreSaleLayers | src/inventory/inventory-fifo-valuation.ts:305-380 | the ceiling guard never rejects; restoring succeeds exactly when enough is still sold and the allocations given back to lie on different layers |
| FifoReversal.ReversalIsExact | src/inventory/inventory-fifo-valuation.ts:305-487 | a void or return is accepted, by valuation and layers together, if and only if its line has that much out at the location and the allocations it gives back to, in order, lie on different layers of its own product |
| FifoReversalMeaning.FirstSoldComesBackFirst | src/inventory/inventory-fifo-valuation.ts:305-380 | stated on the draws themselves: a void or return gives its quantity back to the sales of its line at the place, or to the sale it names, the first draw first and none beyond what it drew, each to its layer at its cost |
| FifoReversal.LoneSaleReverses | src/inventory/inventory-fifo-valuation.ts:311-332 | for a line that sold one product in one movement there, or a return naming its sale, having that much out is enough |
| FifoReversal.StillSoldIsBalance | src/inventory/inventory-fifo-valuation.ts:333-348 | what a line has out for a reversal that names no sale is what its movements sold less what they gave back |
| FifoReversal.NamedSaleDrawsOncePerLayer | src/inventory/inventory-fifo-valuation.ts:311-332 | a reversal that names its sale movement gives back to different layers only |
| FifoKitLines.EarlierComponentBlocks | src/pos/sales.repository.ts:370-436 | a component of a sale line is not given back while another one sold before it there is still out |
| FifoCases.KitVoidIsRefused | src/pos/sales.repository.ts:1208-1276 | a run from an empty book: a kit line sold in one order and voided in the other is refused with all of it still out |
| FifoReversal.CoveredLineNetsToZero | src/inventory/inventory-fifo-valuation.ts:305-380 | once returns and voids cover a sale line, each draw of the line is restored in full, on the layer it drew from, whatever ran in between |
| FifoReversal.LineNeverOverReturned | src/inventory/inventory-fifo-valuation.ts:333-379 | over any run the returns of a line never exceed its sales |
| FifoProjection.MoveLayers | src/inventory/inventory-fifo-valuation.ts:382-422 | the transfer loop opens one layer for each dispatched allocation |
| FifoCosts.TransferIsCostNeutral | src/inventory/inventory-fifo-valuation.ts:382-422 | the value an arrival books is the negation of what its dispatch removed |
| TransferCosts.DispatchIsCostNeutral | src/inventory/inventory-transfer.repository.ts:385-436 | no dispatch, in any committed state, changes the value the layers hold of a product |
| FifoCosts.RoundingIsBounded | src/inventory/inventory-fifo-valuation.ts:138-170 | over any run the booked value of a product differs from the exact value of its layers by at most half a unit for each allocation |
| FifoCosts.ReversalDriftIsBounded | src/inventory/inventory-fifo-valuation.ts:333-379 | an allocation restored in n parts drifts by at most (n + 1) / 2 cost units |
| FifoInvariants.CeilingHolds | src/inventory/inventory-fifo-valuation.ts:349-357 | a layer always has room for what one of its consumers still holds |
| FifoRuns.FlowIsAll | src/inventory/inventory-fifo-valuation.ts:440-487 | when all of a movement's quantity went to its product's layers, none went to another product's |
| FifoRuns.ApplyKeepsInvariant | src/inventory/inventory-fifo-valuation.ts:493-560 | a movement of any kind keeps layers, allocations, valuations and movements in agreement; the ceiling guard never rejects it |
| FifoExactness.ExitIsExact | src/inventory/inventory-valuation.ts:108-215 | any exit is accepted exactly when the layers it may draw on hold its quantity and the value left is not negative: those of its receipt line, of its transfer line, or all at its location |
| FifoMeaning.EntryIsAccepted | src/inventory/inventory-fifo-valuation.ts:122-246 | an ordinary entry is accepted exactly when its price is known and every layer its product ever had is in its currency |
| FifoMeaning.MovementIsValued | src/inventory/inventory-valuation.ts:65-215 | an accepted movement is valued at the cost of its receipt, its sale or the average of its product, and moves the valuation row by its value; goods with a price of their own make the average the new value over the new quantity, rounded |
| FifoMeaning.EntryOpensLayer | src/inventory/inventory-fifo-valuation.ts:172-246 | an ordinary entry opens one layer of its whole quantity at the cost of its receipt line, or else at the average before it or the catalogue cost, and is booked at that cost |
| FifoMeaning.OldestGoesFirst | src/inventory/inventory-fifo-valuation.ts:258-303 | goods leave the layers of their receipt line, of their transfer line, or of their place, oldest first; a younger layer is touched only when every older one is empty |
| FifoMeaning.ExitIsNoted | src/inventory/inventory-fifo-valuation.ts:138-170 | the allocations of what leaves are its own, and those of a supplier return are marked as such |
| FifoMeaning.ArrivalCopiesLayers | src/inventory/inventory-fifo-valuation.ts:382-422 | an arrival opens for each allocation of its dispatch a layer of the same quantity, cost, currency and age |
| FifoMeaning.LayersAreSummed | src/inventory/inventory-fifo-valuation.ts:440-491 | the figures of a movement are the sums over its allocations, and the cost per unit their rounded quotient |
| FifoExactness.ArrivalSucceeds | src/inventory/inventory-fifo-valuation.ts:382-422 | after its dispatch an arrival is always accepted |
| FifoTransit.ExitDrainsTransit | src/inventory/inventory-fifo-valuation.ts:258-303 | an exit takes first what a transfer line brought to its place, when that is the oldest there, received or not |
| FifoTransit.WriteOffAfterExit | src/inventory/inventory-fifo-valuation.ts:258-303 | a discrepancy of the line is then accepted for at most what the exit left |
| TransferCases.MissingIsRefused | src/inventory/inventory-transfer.repository.ts:671-749 | a run of the writers from an empty tenant: a shipment may be reported missing, but no longer once an exit took as much at its destination, although the balance has all of it in transit |
| WorldCases.CrumbsAreRefused | src/inventory/inventory-valuation.ts:108-215 | a run of the writers from an empty tenant: after two entries of 0.004 at 0.01 the stock is there and 0.005 of it cannot leave |
| FifoRuns.RunKeepsInvariant | src/inventory/inventory-fifo-valuation.ts:493-560 | the same over every run, with failing movements rolled back: each layer is the sum of its allocations, within its original quantity, and nothing is restored beyond what was taken |
| FifoProjection.ApplyInventoryValuation | src/inventory/inventory-valuation.ts:108-215 | the moving average and the FIFO projection of one movement, loop by loop, with all of the above |
| LotInvariants.RevaluedBetween | src/inventory/inventory-lot-tracking.ts:174-196 | a weighted revaluation lies between the cost held and the cost coming in |
| LotInvariants.CostsAfterChange | src/inventory/inventory-lot-tracking.ts:174-196 | the negative-cost check never rejects a change |
| LotInvariants.ChangeEffect | src/inventory/inventory-lot-tracking.ts:138-220 | one change moves one lot at one location by its quantity, revalues at most that lot and writes one priced ledger entry |
| LotSteps.ApplyLotsGrows | src/inventory/inventory-lot-tracking.ts:462-650 | a movement changes the lots of its product at its location by exactly its quantity, none below zero, and nothing else; the ledger adds up; returns stay within their sale |
| LotProjection.DrawFromLots | src/inventory/inventory-lot-tracking.ts:443-459 | the consumption loop over lots equals the function the theorems speak of |
| LotProjection.RestoreToLots | src/inventory/inventory-lot-tracking.ts:303-387 | the restoration loop over lots equals the function the theorems speak of |
| LotProjection.ApplyInventoryLotTracking | src/inventory/inventory-lot-tracking.ts:462-650 | lot tracking of one movement, loop by loop, with conservation |
| LotTheorems.FirstExpiredFirstOut | src/inventory/inventory-lot-tracking.ts:425-459 | unguided consumption drains unexpired lots first expired first, each touched only once all before it are empty there, revalues nothing and fails exactly when they hold too little |
| LotMeaning.FirstToExpireGoesFirst | src/inventory/inventory-lot-tracking.ts:389-459 | stated on dates alone: goods that name no lot come from lots not yet expired; a lot is touched only when each that expires earlier, or as early and was entered earlier, is empty there, undated lots last; refused exactly when they hold too little |
| LotMeaning.LotComesIn | src/inventory/inventory-lot-tracking.ts:222-301 | stock comes in under a lot exactly when it has a label with a valid code and dates that suit the product, and agrees with a lot already there in currency and dates; which lot holds it then, and at what cost |
| TextMeaning.LotCodeIsWords | src/inventory/inventory-lot-tracking.ts:101-107 | a lot code is the words of its label in capitals between single blanks, of up to 64 admitted characters |
| LotTheorems.NamedLotIsDrawn | src/inventory/inventory-lot-tracking.ts:399-459 | a request that names a lot, by itself or by label, is accepted exactly when the lot is unexpired or expired ones are allowed and it holds enough there, and takes it all from that lot |
| LotTransfers.DispatchIsLotNeutral | src/inventory/inventory-lot-tracking.ts:303-387 | after a departure the arrival succeeds; every lot keeps its cost and total, and the destination gains what the origin loses of each lot |
| LotReturns.ReturnIsExact | src/inventory/inventory-lot-tracking.ts:340-387 | a return succeeds exactly while its sale has enough left, and gives back each lot in the order drawn |
| LotReversalMeaning.FirstDrawnComesBackFirst | src/inventory/inventory-lot-tracking.ts:303-387 | stated on the ledger entries: a return gives back its sale, a void the sales of its line, an arrival its departure; entry by entry in the order they went out, each in full before the next, at its own cost |
| LotVoids.VoidIsExact | src/inventory/inventory-lot-tracking.ts:303-387 | a void is accepted exactly when its sale drew that much from lots that differ; it keeps what each lot gets back within what it gave exactly when each lot it gives back to has room |
| LotVoids.WholeVoidKeepsLots | src/pos/sales.repository.ts:340-436 | recorded in all ledgers, a void of the whole sale is accepted only while nothing came back, and then keeps every lot within what it gave |
| SerialInvariants.ApplySerialsMoves | src/inventory/inventory-serial-tracking.ts:223-376 | a movement moves exactly its number of units from the state it takes them from to the one it leaves them in; histories stay linked end to end and each last event is the row |
| SerialInvariants.PlacesUnitsMeaning | src/inventory/inventory-serial-tracking.ts:340-362 | when a movement leaves units located: a dispatch names its destination and a state change stays among the states in stock |
| SerialTheorems.PlacementIsExact | src/inventory/inventory-serial-tracking.ts:312-375 | units have a location exactly while in stock if and only if that condition held |
| SerialTheorems.AcceptanceIsExact | src/inventory/inventory-serial-tracking.ts:117-138 | a request is accepted exactly when every named unit is known and may move, and moves those units and no other |
| SerialMeaning.CustodyTable | src/inventory/inventory-serial-tracking.ts:289-375 | for each kind of movement the states its units come from and their state and place afterwards, as a table; every unit it concerns moves by that table, as many as it says, and no other |
| SerialMeaning.UnitsMayMove | src/inventory/inventory-serial-tracking.ts:223-375 | by the same table, accepted exactly when the movement moves whole units and names that many different ones, each in a state and at a place its kind takes units from |
| SerialMeaning.EveryNumberMoves | src/inventory/inventory-serial-tracking.ts:117-138 | every number the request gives names a unit that moved |
| SerialMeaning.UnitsComeIn | src/inventory/inventory-serial-tracking.ts:168-221 | units come in exactly under different new numbers, as many as the quantity; they are then available at the place |
| SerialTheorems.AcceptanceByName | src/inventory/inventory-serial-tracking.ts:58-138 | a dispatch, receipt or write-off is accepted exactly when it names as many different units as it moves, each in an allowed state at its location |
| SerialTheorems.MoveUnitsExact | src/inventory/inventory-serial-tracking.ts:289-375 | the custody loop does not depend on the order of the units |
| SerialTheorems.ReturnIsRejected | src/inventory/inventory-serial-tracking.ts:366-374 | a manual return of units never succeeds |
| SerialTheorems.UnnamedUnitsAreRejected | src/inventory/inventory-serial-tracking.ts:58-76 | an import or adjustment that names no units is refused for a serialised product |
| SerialProjection.RegisterUnits | src/inventory/inventory-serial-tracking.ts:168-221 | the registration loop equals the function the theorems speak of |
| SerialProjection.MoveSelected | src/inventory/inventory-serial-tracking.ts:289-375 | the custody loop equals the function the theorems speak of |
| SerialProjection.ApplyInventorySerialTracking | src/inventory/inventory-serial-tracking.ts:223-376 | serial tracking of one movement, loop by loop, with the chain of custody |
| Ledgers.RecordKeepsAgreement | src/inventory/inventory-transfer.repository.ts:1199-1207 | valuation, lots and serials of one movement keep all ledgers in agreement |
| WriterLoops.RecordInLedgers | src/inventory/inventory-transfer.repository.ts:1199-1207 | the three calls every writer makes, in their order |
| Stock.PostKeepsAgreement | src/inventory/inventory-reconciliation.service.ts:206-254 | a balance write that explains its movement keeps every comparison of the reconciliation |
| Stock.AgreementMeans | src/inventory/inventory-reconciliation.service.ts:206-366 | agreement: balance = movements = states = layer remainders = valuation, lot by lot and unit by unit |
| Transfers.Create | src/inventory/inventory-transfer.repository.ts:143-274 | a creation writes documents only |
| TransferSteps.DispatchLineAgrees | src/inventory/inventory-transfer.repository.ts:385-436 | a dispatched line leaves available stock at its source and is in transit at its destination in every projection |
| TransferExactness.DispatchIsExact | src/inventory/inventory-transfer.repository.ts:385-436 | a line, tracked or not, is dispatched exactly when its source has the quantity available, the value is covered, unexpired lots hold it and the named units are available there; nothing can then stop the arrival |
| ReceiptExactness.ItemIsExact | src/inventory/inventory-transfer.repository.ts:671-749 | an item is received exactly when the quantity is in transit, what it writes off is still on layers the line brought, in value and in unexpired lots, and its units are in transit there, none named twice |
| TransferAcceptance.DispatchAcceptance | src/inventory/inventory-transfer.repository.ts:276-464 | a draft with its documents in order is dispatched exactly when its key is new and each line is accepted in its turn |
| TransferAcceptance.ReceiptAcceptance | src/inventory/inventory-transfer.repository.ts:466-796 | a new receipt of pending quantities is accepted exactly when its balances exist and each item is accepted in its turn |
| TransferTables.DispatchOnTables | src/inventory/inventory-transfer.repository.ts:276-464 | a draft of different products is dispatched exactly when its key is new and every line is available and ready as the tables stand before the call |
| TransferTables.ReceiptOnTables | src/inventory/inventory-transfer.repository.ts:466-796 | a receipt of different products is accepted exactly when its balances exist and every item is in transit and ready as the tables stand before the call |
| OtherProducts.RecordKeepsOthers | src/inventory/inventory-transfer.repository.ts:387-455 | a movement of a transfer changes no value, no usable lot and no unit of another product |
| OtherProducts.LayersOfOthers | src/inventory/inventory-fifo-valuation.ts:258-300 | a receipt or a write-off leaves what the layers of another product can give |
| TransferAcceptance.GoodReceiptSucceeds | src/inventory/inventory-transfer.repository.ts:466-796 | while only transfers put stock in transit, a receipt without discrepancies or serial numbers is always accepted |
| TransferSteps.ReceiveItemAgrees | src/inventory/inventory-transfer.repository.ts:671-749 | a received item leaves transit; its good part is available, the rest leaves the stock, in every projection |
| TransferLifecycle.CreateKeeps | src/inventory/inventory-transfer.repository.ts:143-274 | creating keeps every document invariant and touches no stock |
| TransferLifecycle.DispatchKeeps | src/inventory/inventory-transfer.repository.ts:276-464 | dispatching keeps agreement and the life cycle, and carries every line at once |
| TransferMeaning.CreateDoes | src/inventory/inventory-transfer.repository.ts:143-274 | a creation under a new key succeeds exactly for two different places, different lines, positive quantities and usable products and locations, and writes the draft asked for |
| TransferMeaning.DispatchIsAllowed | src/inventory/inventory-transfer.repository.ts:276-345 | a draft goes exactly from its origin, under a key of its own, when its lines go one after the other |
| TransferMeaning.DispatchDoes | src/inventory/inventory-transfer.repository.ts:346-464 | a dispatch books a departure and an arrival for each line and leaves every unit the lines name in transit to its line's destination |
| TransferLifecycle.CancelKeeps | src/inventory/inventory-transfer.repository.ts:798-828 | cancelling fails exactly on a dispatched transfer, changes only a draft and silently leaves the rest |
| TransferReceiving.ReceiveKeeps | src/inventory/inventory-transfer.repository.ts:466-796 | receiving keeps agreement, never exceeds a line, brings each line forward by what its item says and takes exactly the discrepancies out of stock |
| ReceiptMeaning.RequestIsRead | src/inventory/inventory-transfer.repository.ts:476-520 | a request can be read exactly when it names different lines of the transfer in quantities their policies allow, is not empty, and has a reason for what it reports missing |
| ReceiptMeaning.ReceiptDoesWhatItSays | src/inventory/inventory-transfer.repository.ts:671-760 | stated on the request: each line grows by what its two strings denote; the units named as received are available at the destination, those named as missing are removed and nowhere |
| ReceiptMeaning.ReceiveIsAllowed | src/inventory/inventory-transfer.repository.ts:540-670 | under a new key a receipt is accepted exactly for a transfer on its way to the caller's place, within what each line has pending, when its items are received one after the other |
| ReceiptMeaning.ReceiptIsBooked | src/inventory/inventory-transfer.repository.ts:671-796 | a receipt books a state change for what came and a write-off for what did not, and is noted with its key, reason and lines |
| TransferReceiving.ReceiptAccounts | src/inventory/inventory-transfer.repository.ts:681-721 | what a line has received and lost is the sum of its receipt lines |
| TransferTheorems.ReceiptIsNeverShort | src/inventory/inventory-transfer.repository.ts:625-674 | while only transfers put stock in transit, neither the missing-balance nor the shortage check rejects a receipt |
| TransferTheorems.TransferRun | src/inventory/inventory-transfer.repository.ts:276-828 | over every run: agreement, in-transit stock equals what dispatched lines have pending, stock falls by exactly the recorded discrepancies |
| TransferRetries.ReceivedMeansComplete | src/inventory/inventory-transfer.repository.ts:751-768 | a dispatched transfer with something on it is RECEIVED exactly when every line is complete |
| TransferRetries.ReceivingEnds | src/inventory/inventory-transfer.repository.ts:594-615 | at most as many receipts are newly accepted as there was quantity pending |
| TransferRetries.CallExtends | src/inventory/inventory-transfer.repository.ts:276-828 | the status of a transfer only moves forward; keys and contents are never rewritten |
| WorldRetries.RepeatChangesNothing | src/inventory/inventory.repository.ts:1446-1600 | an accepted transfer call, manual movement, state change, import, closed count or kit operation changes nothing when repeated, whatever any writer did in between |
| KeyReuse.MovementKeyReuse | src/inventory/inventory.repository.ts:1515-1524 | the key of a movement used again is answered without a change for the same content, and refused for other content |
| KeyReuse.TransitionKeyReuse | src/inventory/inventory.repository.ts:1834-1846 | the same for the key of a state change |
| KeyReuse.ReceiptKeyReuse | src/inventory/inventory-transfer.repository.ts:520-560 | the same for the key of a receipt, at the destination of its transfer |
| KeyReuse.KitKeyReuse | src/inventory/inventory-kit.repository.ts:256-284 | the same for the key of a kit operation |
| WorldRetries.CreationIsFound | src/inventory/inventory-transfer.repository.ts:192-202 | a repeated creation finds its transfer whatever any writer did in between; other content under its key never makes another |
| WriterAgreement.RecordMovementWrites | src/inventory/inventory.repository.ts:1446-1600 | a manual movement keeps agreement, damage of serialised units apart |
| WriterAgreement.ChangeStateWrites | src/inventory/inventory.repository.ts:1793-1952 | a state change keeps agreement |
| WriterAgreement.ConfirmImportWrites | src/inventory/inventory-import.repository.ts:307-497 | a confirmed import keeps agreement and counts the movements it wrote |
| ImportMeaning.ImportSetsTargets | src/inventory/inventory-import.repository.ts:307-497 | for a file that names each state once: accepted exactly when it has no errors, its key is new, every state still holds what the preview saw and the ledgers take the differences; every state named is then at its target, every other unchanged, and the differences are booked |
| WriterMeaning.MovementDoes | src/inventory/inventory.repository.ts:1446-1600 | a manual movement is made exactly when its reference, target, quantity and stock allow it and the ledgers take it; which row it changes, by how much, and what it books |
| WriterMeaning.ChangeStateDoes | src/inventory/inventory.repository.ts:1793-1952 | a state change is made exactly when one side is available stock, the other holds enough and the ledgers take it; it shifts the quantity from one to the other |
| WriterMeaning.CountCloses | src/inventory/inventory-count.repository.ts:312-445 | a count is closed exactly when all lines are counted, the stock is as the session found it and the ledgers take the variances; each line records its variance and is adjusted by it |
| Runs.OpenedCountStands | src/inventory/inventory-count.repository.ts:77-208 | a count opened over different products notes what is available of each and changes no balance; its snapshots hold until something moves |
| WriterAgreement.CloseCountWrites | src/inventory/inventory-count.repository.ts:312-445 | a closed count leaves each product available as counted, nothing else changed, agreement kept |
| WriterAgreement.OperateKitWrites | src/inventory/inventory-kit.repository.ts:38-254 | a kit operation on untracked products keeps agreement |
| WriterAgreement.TrackedComponentBreaks | src/inventory/inventory-kit.repository.ts:146-211 | a change by a kit operation keeps agreement exactly when the product is untracked |
| KitTheorems.TrackedKitBreaks | src/inventory/inventory-kit.repository.ts:131-211 | a booked kit operation that changes the quantity of a tracked product always breaks agreement |
| TrackingCases.LotIsNotFollowed | src/inventory/inventory-kit.repository.ts:131-211 | a run of the writers from an empty tenant: a component goes from its lot into a kit, the balance falls to nothing and the lot stays full |
| WriterLoops.LockDispatch | src/inventory/inventory-transfer.repository.ts:345-383 | the balances held in memory are those of the tables |
| WriterLoops.DispatchAll | src/inventory/inventory-transfer.repository.ts:385-436 | the dispatch loop over its lines, through the balances held in memory |
| WriterLoops.LockReceipt | src/inventory/inventory-transfer.repository.ts:617-653 | the balances of a receipt are loaded exactly when they all exist |
| WriterLoops.ReceiveAll | src/inventory/inventory-transfer.repository.ts:671-749 | the receipt loop over its items, through the balances held in memory |
| WriterLoops.ConfirmAll | src/inventory/inventory-import.repository.ts:347-462 | the confirmation loop over the rows |
| WriterLoops.CloseAll | src/inventory/inventory-count.repository.ts:344-430 | the closing loop over the lines, against the balances loaded first |
| WriterLoops.CollectChanges | src/inventory/inventory-kit.repository.ts:131-146 | the changes of a kit operation in product order |
| WriterLoops.ApplyAll | src/inventory/inventory-kit.repository.ts:146-211 | the loop of a kit operation over its products |
| KitTheorems.OperationIsNet | src/inventory/inventory-kit.repository.ts:131-186 | an operation changes each balance of its location by the kit's net change and no other |
| KitTheorems.DisassemblyUndoes | src/inventory/inventory-kit.repository.ts:131-186 | an assembly and then a disassembly of as many of the same kits, both booked, restore every balance |
| KitExactness.OperationIsExact | src/inventory/inventory-kit.repository.ts:131-211 | a kit operation is accepted exactly when the change of the kit and of each component could be made on its own |
| WriterMeaning.KitIsOperated | src/inventory/inventory-kit.repository.ts:38-254 | a kit operation is booked exactly as asked of a kit in force that is built from stock; one adjustment for each product, and the operation noted under its key |
| KitExactness.DisassemblyIsAccepted | src/inventory/inventory-kit.repository.ts:131-211 | right after an assembly its disassembly is accepted exactly when the components it gives back were held in the currency of the tenant before it |
| TrackingCases.ApartIsRefused | src/inventory/inventory-kit.repository.ts:131-211 | a component bought in another currency goes into a kit that cannot be taken apart |
| KitTheorems.AssemblyIsAdditive | src/inventory/inventory-kit.repository.ts:131-144 | two booked assemblies leave the balances that one of them all does exactly when no component loses a fraction to the cut-off; whole kits never do |
| KitTheorems.KitUnitsAreWhole | src/inventory/inventory-kit.repository.ts:95-107 | a kit sold with precision 0 is operated in whole kits |
| KitCatalogue.KitsStayUntracked | src/catalog/catalog.repository.ts:239-286 | kits stay untracked and in whole units under every configuration, and under an accepted update exactly when a kit among the product's variants takes over no lots and whole units |
| KitCatalogue.MovedIsAsked | src/catalog/catalog.repository.ts:219-368 | an update is accepted exactly when it leaves tracking and quantities of a product that has moved, whole units for serial numbers, and a kit untracked |
| KitCatalogue.MovedKeepSettings | src/catalog/catalog.repository.ts:219-389 | products that have moved keep their tracking and quantities under an accepted update exactly when every moved variant already had what it takes over |
| KitCatalogue.SerialsStayWhole | src/catalog/catalog.repository.ts:370-389 | serialised products stay in whole units exactly when no serialised variant takes over other ones |
| KitCatalogue.ConfigurationIsAllowed | src/catalog/catalog.repository.ts:466-640 | a kit is accepted exactly for an untracked product in whole units, of different usable components, and with stock only of the same components |
| KitCatalogue.TrackingOfComponents | src/catalog/catalog.repository.ts:219-386 | an accepted update keeps components untracked exactly when it leaves tracking off for a component, and lots off for the parent of one |
| KitCatalogue.NestingOfKits | src/catalog/catalog.repository.ts:534-586 | an accepted kit keeps kits unnested exactly when its product is not a component already |
| KitCatalogue.RulesAreOutlived | src/catalog/catalog.repository.ts:521-586 | accepted updates after which a component is tracked, and after which kits are nested |
| KitCatalogue.VariantKitIsTracked | src/catalog/catalog.repository.ts:370-389 | accepted updates after which a kit that is a variant is tracked by lot |
| Reconciliation.AddQuantityRows | src/inventory/inventory-reconciliation.service.ts:608-631 | a mismatch query over its scope keys is empty exactly when the two quantities agree on all of them |
| Reconciliation.CollectValuations | src/inventory/inventory-reconciliation.service.ts:256-328 | no valuation finding exactly when quantity and value of every product agree |
| Reconciliation.CollectLotLedger | src/inventory/inventory-reconciliation.service.ts:424-456 | no ledger finding exactly when each lot balance is the sum of its entries |
| Reconciliation.CollectUnits | src/inventory/inventory-reconciliation.service.ts:463-532 | no unit finding exactly when units and balances agree in every state |
| Reconciliation.CollectCustody | src/inventory/inventory-reconciliation.service.ts:534-605 | no custody finding exactly when every unit is placed as its status says and as its last event left it |
| Reconciliation.Collect | src/inventory/inventory-reconciliation.service.ts:192-336 | the whole report is empty exactly when all projections agree everywhere, not only on the scope keys |
| Reconciliation.AgreementIsClean | src/inventory/inventory-reconciliation.service.ts:192-605 | in every state the writers reach the report is empty |
| Runs.RunKeepsAgreement | src/inventory/inventory-reconciliation.service.ts:206-254 | over every run of all writers, with failures rolled back, all projections agree and the report is empty |
| Runs.DamageBreaksAgreement | src/inventory/inventory-serial-tracking.ts:357-359 | a manual movement that succeeds keeps agreement exactly when it is not damage of a serialised product |
| TrackingCases.DamageIsNotFollowed | src/inventory/inventory-serial-tracking.ts:357-359 | a run of the writers from an empty tenant: one unit is damaged and the balance shows nothing damaged |
| InventoryDatabase.InventoryDatabase.CreateTransfer | src/inventory/inventory-transfer.repository.ts:143-274 | commits exactly the modelled creation, or nothing |
| InventoryDatabase.InventoryDatabase.DispatchTransfer | src/inventory/inventory-transfer.repository.ts:276-464 | commits exactly the modelled dispatch, or nothing; every agreement survives |
| InventoryDatabase.InventoryDatabase.ReceiveTransfer | src/inventory/inventory-transfer.repository.ts:466-796 | commits exactly the modelled receipt, or nothing; every agreement survives |
| InventoryDatabase.InventoryDatabase.CancelTransfer | src/inventory/inventory-transfer.repository.ts:798-828 | commits exactly the modelled cancellation, or nothing |
| InventoryDatabase.InventoryDatabase.CreateMovement | src/inventory/inventory.repository.ts:1446-1600 | commits exactly the modelled movement, or nothing; every agreement survives |
| InventoryDatabase.InventoryDatabase.CreateStateTransition | src/inventory/inventory.repository.ts:1793-1952 | commits exactly the modelled state change, or nothing; every agreement survives |
| InventoryDatabase.InventoryDatabase.ConfirmImportFile | src/inventory/inventory-import.repository.ts:307-497 | commits all rows of an import, or none; every agreement survives |
| InventoryDatabase.InventoryDatabase.CloseSession | src/inventory/inventory-count.repository.ts:312-445 | commits the whole count, or nothing; every agreement survives |
| InventoryDatabase.InventoryDatabase.Operate | src/inventory/inventory-kit.repository.ts:38-254 | commits the whole kit operation, or nothing; every agreement survives |
| InventoryDatabase.InventoryDatabase.Reconcile | src/inventory/inventory-reconciliation.service.ts:192-336 | in every reachable state the reconciliation reports nothing |
| JsonTheorems.StableIsPrint | src/audit/audit.service.ts:452-467 | the stable text is the print of the canonical value: sorting and printing commute |
| JsonTheorems.ValueRoundTrip | src/audit/audit.service.ts:469-476 | a printed value parses back to itself whatever follows it |
| JsonTheorems.ParseStable | src/audit/audit.service.ts:452-476 | parsing the stable text gives the canonical value |
| JsonTheorems.StableIsInjective | src/audit/audit.service.ts:444-467 | two values have one stable text exactly when they have one canonical form |
| JsonTheorems.StableOfParsed | src/audit/audit.service.ts:353-371 | what is stored and read back prints as what was hashed |
| Audit.InsertVerifies | src/audit/audit.service.ts:209-285 | recording an event leaves every event of the log verified |
| Audit.AuditLog.Insert | src/audit/audit.service.ts:209-285 | appends one event under the head and moves the head, or refuses a used key and changes nothing |
| Audit.ListEvents | src/audit/audit.service.ts:107-145 | lists one page of the selected events, the last first; its flag is set exactly when every event of the page verifies |
| AuditTheorems.PagesTellAll | src/audit/audit.service.ts:107-145 | all pages are intact exactly when every selected event verifies |
| AuditTheorems.SamePayloadText | src/audit/audit.service.ts:353-368 | rows whose payloads print alike agree on every hashed field |
| AuditTheorems.EventKeys | src/audit/audit.service.ts:209-285 | an event recorded once for its action and entity has one key whatever call it came from, any other the key of its own call |
| AuditTheorems.VerifiedLogsAgree | src/audit/audit.service.ts:353-405 | two logs verified under one head agree on every shared event, unless two of their hashed texts collide; of equal length, they share all |
| AuditTheorems.DeletionShows | src/audit/audit.service.ts:372-378 | of a verified log exactly the final stretches still verify |
| Csv.ParseCsv | src/catalog/product-import.service.ts:523-551 | the character loop equals the function the theorems speak of |
| CsvTheorems.ParsePrinted | src/catalog/product-import.service.ts:384-388 | parsing a printed matrix gives its filled rows, each cell safe and trimmed, with any commas, quotes and line breaks |
| CsvTheorems.PrintParseRoundTrip | src/catalog/product-import.service.ts:523-551 | printer and parser undo each other exactly for trimmed cells that start no formula, in rows that hold something |
| CsvTheorems.NoCellIsFormula | src/catalog/product-import.service.ts:384-388 | no printed cell starts a formula: it begins with none of the four signs |
| CsvTheorems.ParseResultFile | src/catalog/product-import.service.ts:238-255 | a downloaded result file parses to its header and its rows |
| PaymentTheorems.CentsRoundTrip | src/integrations/psp-payment.service.ts:352-363 | a printed amount parses back |
| PaymentTheorems.AmountRoundTrip | src/integrations/psp-payment.service.ts:352-363 | parsing and printing an amount gives the same text exactly for the form the interface admits |
| PaymentTheorems.ExecuteFits | src/integrations/psp-payment.service.ts:131-195 | an accepted action keeps refunds within the payment and its status in step, and never goes back |
| PaymentTheorems.ReportFits | src/integrations/psp-payment.service.ts:285-309 | a webhook never goes back and never touches refunds |
| PaymentMeaning.ActionTable | src/integrations/psp-payment.service.ts:131-195 | for each action, status and scenario the status, error and refund that follow, as a table; refused exactly where the table has nothing |
| PaymentMeaning.WebhookTable | src/integrations/psp-payment.service.ts:285-309 | for each status and event what a webhook does: takes its status, clears the error, or nothing |
| PaymentMeaning.ActionIsKept | src/integrations/psp-payment.repository.ts:126-189 | an action is kept with the payment it made and given as the answer |
| PaymentMeaning.WebhookIsKept | src/integrations/psp-payment.repository.ts:191-275 | an event with the token of its payment is kept with what became of it; any other token is refused |
| PaymentMeaning.EventReuse | src/integrations/psp-payment.repository.ts:205-247 | an event identifier used again is answered for the same content and refused for other content |
| PaymentMeaning.CreationTable | src/integrations/psp-payment.repository.ts:48-99 | a payment is created exactly for a valid key and amount under references nobody has, waiting for confirmation |
| PaymentTheorems.RunKeeps | src/integrations/psp-payment.repository.ts:126-275 | over every interleaving refunded is the sum of the recorded refunds, within the amount, decides the refund status; no payment goes back |
| PaymentTheorems.ActionIsDoneOnce | src/integrations/psp-payment.repository.ts:277-301 | a repeated action returns its first result after any run and changes nothing; another under its key is refused |
| PaymentTheorems.EventIsReceivedOnce | src/integrations/psp-payment.repository.ts:205-247 | a repeated webhook changes nothing after any run |
| PaymentTheorems.ReportsSettle | src/integrations/psp-payment.service.ts:285-309 | uncontested webhooks lead to a status that depends only on which arrived |
| PaymentTheorems.OrderIsImmaterial | src/integrations/psp-payment.service.ts:285-309 | order and repetition are immaterial exactly when no decline competes with another event on an unconfirmed payment |
| PaymentRepository.PaymentRepository.CreatePayment | src/integrations/psp-payment.repository.ts:48-99 | creates one payment for a key and merchant reference |
| PaymentRepository.PaymentRepository.PerformAction | src/integrations/psp-payment.repository.ts:126-189 | applies an action once for each key |
| PaymentRepository.PaymentRepository.ReceiveWebhook | src/integrations/psp-payment.repository.ts:191-275 | applies an event once for each event identifier |
| VariantTheorems.CombinationsAreChoices | src/catalog/catalog.repository.ts:1371-1381 | the Cartesian product lists every choice of values, as many as the counts multiply to |
| Variants.Validate | src/catalog/catalog.repository.ts:1312-1369 | the validator's sets accept exactly the configurations its checks describe |
| VariantTheorems.AcceptedKeysMatch | src/catalog/catalog.repository.ts:1348-1368 | an accepted configuration has exactly the keys of the combinations, each once, whatever characters occur |
| VariantTheorems.AcceptanceIsExact | src/catalog/catalog.repository.ts:1312-1381 | among configurations whose variants select listed values, acceptance is a bijection between variants and combinations under distinct keys |
| VariantTheorems.AcceptanceIsCompleteness | src/catalog/catalog.repository.ts:1312-1381 | without the separator in values, acceptance is a bijection between variants and combinations |
| VariantTheorems.SeparatorInsideIsAccepted | src/catalog/catalog.repository.ts:1348-1389 | with the separator inside a value a variant of unlisted values is accepted, under every normalisation that leaves capitals alone |
| Quantity.UnitsRoundTrip | src/common/quantity-policy.ts:36-53 | printing and parsing undo each other exactly up to twelve whole digits |
| Quantity.CanonicalForm | src/common/quantity-policy.ts:36-53 | every accepted string has a canonical form that denotes the same quantity |
| QuantityMeaning.WholeDenotes | src/common/quantity-policy.ts:36-47 | the digits of a whole number count by their place, a thousand to the unit |
| QuantityMeaning.DecimalDenotes | src/common/quantity-policy.ts:36-47 | up to three decimals count thousandths by their place |
| QuantityMeaning.MinusCountsDown | src/common/quantity-policy.ts:36-47 | a minus sign negates |
| QuantityMeaning.PolicyIs | src/common/quantity-policy.ts:55-84 | a policy is accepted exactly with up to three decimals and a positive minimum on its own grid; with serial numbers only for single pieces |
| Quantity.RoundIsOdd | src/common/quantity-policy.ts:109-126 | rounding is symmetric in the sign |
| Quantity.RoundIsClose | src/common/quantity-policy.ts:109-126 | the result is on the grid, within one quantum, within half for HALF_UP, on the side its mode asks for |
| Quantity.RoundIsMonotone | src/common/quantity-policy.ts:109-126 | rounding never reverses an order |
| Quantity.RoundIsIdempotent | src/common/quantity-policy.ts:109-126 | rounding twice is rounding once |
| Quantity.NormalizationIsStable | src/common/quantity-policy.ts:86-107 | a normalised quantity respects sign, grid and minimum, and normalises to itself exactly when it was not within one quantum, or half of one for HALF_UP, under twelve whole digits |
| Quantity.RoundingUpMayOverflow | src/common/quantity-policy.ts:86-107 | the largest quantity, rounded up, is not accepted again |

## Left out

- SQL text, locking order, HTTP mapping and the input classes; a locked transaction is one atomic step.
- The reconciliation guard that suspends operations, and the storage and closing of findings.
- Valuation methods other than the moving average, `finalizeSpecificLotMovementValuation`, and the column that records the resulting FIFO value of a movement.
- The opening cut-over of layers and lots for stock that predates them: histories start empty.
- The balance writers of sales, purchases and supplier returns: their movements are inputs to the layer, lot and serial functions.
- Several tenants: one is modelled, and identifiers are positions.
- The order in which imports visit their rows and serial selection visits its units is taken as given; `SerialTheorems.MoveUnitsExact` shows the latter is immaterial.
- Request fingerprints are the requests themselves, which supposes that their digests do not collide.
- Clocks, time zones and random identifiers are parameters. Upper-casing covers ASCII letters.
- Redaction of audit data, which happens before hashing; numbers in audit data are integers, characters are Unicode scalar values, and an escaped surrogate or a number with a fraction does not parse in the model.
- XLSX files, the column mapping of product imports, and the classification of their rows.
- The stock mode and validity dates of a kit, beyond being in force, and the removal of kits; the stock and tax behaviour of products.
- The filters of the audit listing: what its WHERE clause selects is a parameter; its export to CSV.
- Demand forecasting, accounting, fiscal documents, messaging, exports and stock alerts.
- LotSteps.ApplyLotsGrows: asks that the lot entries a reversal finds under its document line are of its product; transfer lines name one product, and the only sale lines that name several are those of derived kits, whose components the sales code does not pass to lot tracking.
- WriterAgreement.RecordMovementWrites: excludes damage of serialised units, for which Runs.DamageBreaksAgreement shows that it fails.
- WriterAgreement.OperateKitWrites: asks that kits and components are untracked, for the reason TrackedComponentBreaks and TrackedKitBreaks show.
- AuditTheorems.VerifiedLogsAgree: asks for no collision among the texts the two logs hash, since no function of fixed length is free of collisions.
