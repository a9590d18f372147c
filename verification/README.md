# Inventory posting engine: a verified model

A Dafny model of the stock posting engine and the protocols around it, with proofs of what
its comments, tests and documentation promise. `dafny verify dfyconfig.toml` checks it all.

Quantities, rates and amounts are integers in units of 0.0001, rounded half away from zero;
a product of two is in units of 0.00000001. A table is a field of a class (a map or a
sequence), a database transaction is a snapshot kept until commit or put back on failure.
Methods follow the code's own loops and branches and are tied to specification functions;
the lemmas speak of those functions over all inputs, runs and reachable states.

| files | what they model |
|---|---|
| `FixedPoint`, `Sequences`, `Text` | rounding, sums, lists, trim, case folding, numbers as text |
| `Allocation`, `AllocationDetail` | spreading a charge, and its parent and detail rows |
| `CostLayers`, `LayerOrder`, `ReceiptRemainder`, `LayerReversal`, `LayerPool`, `LayerValue`, `LayerDates` | FIFO/LIFO layers, the closed form for what is left of a receipt, layer reversals |
| `DocumentTypes`, `ReceiptLandedCost`, `LandedCostPosting`, `LandedCostAbsorption`, `LandedCostStores` | the type registry; landed cost on a receipt and as a document |
| `StockLedger`, `StockRevaluation`, `WeightedAverage` | movements and balances, revaluation, the weighted-average unwind |
| `PeriodLock`, `ValuationBridge` | the period lock and the value bridge it freezes |
| `Approval` | the document lifecycle |
| `HandoffTracker`, `BooksHandoff` | the journal handoff between Inventory and Books |
| `TablePasses`, `CompanyPurge` | purge and restore in passes under foreign keys |
| `GroupRepair`, `Heartbeat`, `CanonicalRequest` | the group-code repair, the cron heartbeat, the canonical request |

## Where the code and its documentation disagree, or a promise needs a condition

- The closed form for a receipt's remainder stands in for FIFO except where an issue leaves
  its last 0.0001 undrawn or a receipt was dated before ones already drawn
  (`ReceiptRemainder.ClosedFormOnRuns`, `ReceiptRemainder.BackdatedReceiptMisleads`).
- "Largest-weight line" in the allocator's comment is the largest share in the code.
- A charge of a few units can leave a negative share (`Allocation.TinyChargeLeavesANegativeShare`).
- The comment on loading bounds the error by 0.00005 x quantity; the amount's own rounding adds 0.00005.
- Landed cost is dropped when a line's base quantity rounds to zero (`ReceiptLandedCost.NothingIsDropped`).
- A landed-cost document may carry a negative allotment, so absorption is bounded in absolute value.
- Two layer reversals commute except where a single 0.0001 meets the tolerance (`LayerPool.ReversalOrder`,
  `LayerPool.ReversalOrderMatters`).
- A branch's lock freezes that branch's bridge, not the company's (`ValuationBridge.BranchLockLeavesTheCompanyOpen`).
- Inward then outward restores a weighted average whole under a condition (`WeightedAverage.InwardThenOutward`),
  outward then inward only to a bound.
- The order of an object's entries is forgotten only where the host language's comparison is an
  order on its keys (`CanonicalRequest.CircleIsNotRecognised`).
- Undo of the group repair forgets blank codes and inactive groups (`GroupRepair.UndoRestores`).
- Revising a document that was already reversed posts one more replacement and takes nothing back
  (`StockLedger.RevisionReplaces`).
- A heartbeat run that stops by `exit()` or a kill sends no finish, whatever it had reported.
- A purge of a chain of more than twelve tables may succeed and its restore fail
  (`CompanyPurge.LongChainsCannotComeBack`).
- The outbox sends by due time, so a reversal can overtake a posting waiting out its back-off
  (`BooksHandoff.ReversalOvertakes`); and retiring a refused document's events can strand a
  journal redelivered in between (`BooksHandoff.RedeliveryBeforeRetirement`) or sent later by a
  dispatcher that had read the row before (`BooksHandoff.LandsAfterRetirement`).

## Assumptions

- Books applies an event once by its id, refuses only an event it has not applied, and takes
  a reversal of a journal it does not hold without effect.
- One database statement is atomic and refused exactly when a reference would dangle; the
  foreign keys are checked per statement and none cascades.
- Recording a delivery never throws once the event has been sent: a throw there would make an
  accepted journal look refused to the request that posts it (`BooksHandoff`).
- Keys of an object compare as the host language's values do from version 8.2 on; sorting
  moves an entry only past those it is less than (`CanonicalRequest`).
- Every row of the tables the group repair reads belongs to one company.

## Model

| member | source | states |
|---|---|---|
| `FixedPoint.RoundDiv` | server-php/app/Services/DocumentPostingService.php:803-810 | every figure is kept at four decimals, rounded half away from zero: the result is within half a unit of the exact quotient and a tie goes away from zero |
| `FixedPoint.RoundDivUnique` | server-php/app/Services/DocumentPostingService.php:803-810 | the half-unit bounds pick out one integer, so the rounding rule leaves no freedom |
| `FixedPoint.OneWhole` | server-php/app/Services/DocumentPostingService.php:803-810 | one whole at a rate is worth the rate, and an amount over one whole is its rate |
| `Allocation.SettleResidual` | server-php/app/Services/DocumentPostingService.php:935-960 | the residual goes on the first largest share; the shares sum exactly to the amount |
| `Allocation.AllocateCharge` | server-php/app/Services/DocumentPostingService.php:912-928 | refuses exactly when nothing weighs anything; otherwise pro-rata shares, each rounded, settled to the exact charge |
| `Allocation.LargestKey` | server-php/app/Services/DocumentPostingService.php:949-956 | the scan finds the first share that is largest in absolute value |
| `Allocation.SettledSharesTie` | server-php/app/Services/DocumentPostingService.php:899-902 | any outcome of the allocator, for any weights, sums exactly to the charge |
| `Allocation.SharesAreNearProRata` | server-php/app/Services/DocumentPostingService.php:912-960 | every share is within half a unit of its exact pro-rata value, except one residual-bearing share, which is within (n - 1) halves |
| `Allocation.RoundedSum` | server-php/app/Services/DocumentPostingService.php:922-926 | before the residual is settled the rounded shares miss the charge by at most n halves |
| `Allocation.SharesAreNonNegative` | server-php/app/Services/DocumentPostingService.php:912-960 | no share is negative once the charge is at least n(n+1)/2 units of 0.0001 |
| `Allocation.TinyChargeLeavesANegativeShare` | server-php/app/Services/DocumentPostingService.php:912-960 | the bound is needed: two units over four equal lines leave shares -1, 1, 1, 1 |
| `CostLayers.ConsumeLayers` | server-php/app/Services/ValuationEngine.php:294-318 | an issue walks the layers in the method's order, ignoring 0.0001, and yields exactly the draw of the step-by-step definition |
| `CostLayers.DrawConserves` | server-php/app/Services/ValuationEngine.php:294-340 | for either order what the layers lose, what is recorded as consumed and what stays unmet add up to the issue |
| `CostLayers.ClosedFormIffOldestFirst` | server-php/app/Services/DocumentPostingService.php:1642-1711 | max(0, min(line quantity, on hand - received after)) names what every layer holds exactly when the layers have been drawn oldest first |
| `CostLayers.ClosedFormsSumToOnHand` | server-php/app/Services/DocumentPostingService.php:1642-1711 | the closed forms of all receipts add up to what is on hand, capped by what was received |
| `CostLayers.IssueKeepsOldestFirst` | server-php/app/Services/ValuationEngine.php:294-340 | a FIFO issue of any quantity leaves the layers drawn oldest first |
| `CostLayers.ReceiptKeepsOldestFirst` | server-php/app/Services/DocumentPostingService.php:1642-1711 | a receipt filed at its date among the others keeps them so exactly when nothing behind it has been drawn: a backdated receipt may not |
| `CostLayers.UnmetUnit` | server-php/app/Services/ValuationEngine.php:294-340 | an issue within stock leaves its last 0.0001 undrawn exactly when the layers it empties add up to one unit less than it |
| `LayerOrder.OldestReadsEveryRowByDate` | server-php/app/Services/ValuationEngine.php:375-385 | an issue reads every row once, by date and then by id, whatever order the rows were entered in |
| `LayerOrder.DrawsInTurn` | server-php/app/Services/ValuationEngine.php:375-427 | a row is drawn from only once every row dated before it (LIFO: after it) is empty |
| `LayerDates.ShortfallAtTheLatestCost` | server-php/app/Services/ValuationEngine.php:341-352 | a shortfall is costed at the layer with stock and a cost that bears the latest date |
| `LayerDates.ShortfallFallsBack` | server-php/app/Services/ValuationEngine.php:319-325 | where no layer says a cost, at the fallback, never below nothing |
| `LayerDates.RunStaysDated` | server-php/app/Services/ValuationEngine.php:502-520 | over every run a layer bears the date of the line that opened it and says what that line received |
| `LayerDates.IssuesGoByDate` | server-php/app/Services/ValuationEngine.php:375-427 | on the layers of any run a FIFO issue draws on a receipt only once every receipt dated before it is empty, a LIFO issue the other way |
| `ReceiptRemainder.ReceiptQtyStillOnHand` | server-php/app/Services/DocumentPostingService.php:1666-1711 | the loop over later inward movements returns the closed form of the line's own movement |
| `ReceiptRemainder.ClosedFormOnRuns` | server-php/app/Services/DocumentPostingService.php:1642-1711 | over every run of receipts of any dates and issues that never goes negative, what each receipt reads off the movement ledger is what its FIFO layer holds exactly when no issue left its last 0.0001 undrawn and no layer is drawn while one dated before it still holds stock |
| `ReceiptRemainder.BackdatingIsWhatDisturbs` | server-php/app/Services/DocumentPostingService.php:1642-1711 | the layers are drawn oldest first after every step of a run exactly when no receipt was entered behind a layer already drawn from |
| `ReceiptRemainder.InOrderNeverDisturbs` | server-php/app/Services/DocumentPostingService.php:1642-1711 | receipts entered in the order of their dates are never behind a draw |
| `ReceiptRemainder.BackdatedReceiptMisleads` | server-php/app/Services/DocumentPostingService.php:1642-1711 | a backdated run on which the layers hold 50 and 20 and the ledger reads 20 and 50 |
| `ReceiptRemainder.ReadingsSumToOnHand` | server-php/app/Services/DocumentPostingService.php:1642-1711 | over every such run what all receipts read off the ledger adds up to on hand |
| `ReceiptRemainder.OneUnitIssueBreaksTheClosedForm` | server-php/app/Services/ValuationEngine.php:294-340 | an issue of 0.0001 leaves the books and draws from no layer |
| `LayerReversal.CostLayerTable.RecordReceipt` | server-php/app/Services/ValuationEngine.php:80-130 | a receipt opens one layer at its cost |
| `LayerReversal.CostLayerTable.IssueStock` | server-php/app/Services/ValuationEngine.php:294-427 | an issue draws on the rows by date, records what it drew per layer, files at most one negative layer, and answers its amount and rate |
| `LayerReversal.CostLayerTable.ReverseIssue` | server-php/app/Services/DocumentPostingService.php:1829-1837 | consumed quantities go back to the layers they came from, the consumption rows and the negative layer of the line go |
| `LayerReversal.CostLayerTable.ReverseReceipt` | server-php/app/Services/DocumentPostingService.php:1838-1853 | the layer is emptied; more than 0.0001 already consumed becomes a negative layer at its cost |
| `LayerValue.IssueCostsWhatTheTableLoses` | server-php/app/Services/ValuationEngine.php:294-340 | before its rounding an issue costs exactly what the value of the table falls by, the negative layer included, for any rows, order and fallback cost |
| `LayerValue.RunConservesTheValue` | server-php/app/Services/DocumentPostingService.php:1829-1853 | over every such run the table is worth the un-reversed receipts at their cost less what the un-reversed issues cost, plus the unit the tolerance kept of each reversed receipt at its cost: an issue reversed brings back exactly what it cost |
| `LayerPool.RunConservesThePool` | server-php/app/Services/DocumentPostingService.php:1829-1853 | over every run of receipts of any dates, FIFO and LIFO issues and their reversals the layers hold un-reversed received less un-reversed issued, plus exactly the units the tolerance left out, at most one a line |
| `LayerPool.ReversalOrder` | server-php/app/Services/DocumentPostingService.php:1829-1853 | reversing a receipt and an issue in either order leaves one quantity exactly when the tolerance never meets a single unit: the issue drew nothing there, or neither the others alone nor all together drew one unit |
| `LayerPool.ReversalOrderValue` | server-php/app/Services/DocumentPostingService.php:1829-1853 | the values the two orders leave differ by the difference in quantity at the receipt's cost, so equal quantities mean equal value |
| `LayerPool.ReversalOrderMatters` | server-php/app/Services/DocumentPostingService.php:1829-1853 | a run on which the two orders leave different totals |
| `DocumentTypes.EveryTypeIsRegistered` | server-php/app/Config/DocumentTypeRegistry.php:20-50 | every declared type and stock effect falls under the table's behaviours the posting predicates branch on |
| `DocumentTypes.FlowsOfTypes` | server-php/app/Config/DocumentTypeRegistry.php:218-243 | which types count as receipts, issues, transfers, adjustments and none |
| `DocumentTypes.WhatMovesNow` | server-php/app/Services/DocumentPostingService.php:576-594 | which types move stock when they post, and on which stock effects |
| `DocumentTypes.WhatIsValued` | server-php/app/Services/DocumentPostingService.php:595-621 | which types carry a value, and when their own lines do |
| `AllocationDetail.AllocationTable.WriteLandedCostAllocation` | server-php/app/Services/DocumentPostingService.php:1253-1322 | a document's rows are replaced by the grouping of its shares by cost type and receipt |
| `AllocationDetail.DetailTiesToShares` | server-php/app/Services/DocumentPostingService.php:1253-1322 | over any choice of cost type, receipt and line the detail rows total what the shares total |
| `AllocationDetail.ParentsTieToShares` | server-php/app/Services/DocumentPostingService.php:1253-1322 | over any choice of cost type and receipt the parent rows total what the shares total |
| `AllocationDetail.GroupedIsDistinct` | server-php/app/Services/DocumentPostingService.php:1253-1322 | one parent a cost type and receipt, one detail row a line under it |
| `AllocationDetail.RowsSayWhatSharesDo` | server-php/app/Services/DocumentPostingService.php:1253-1300 | a line's row carries all its shares of the cost type, on the basis and quantity of the first; a line without a share has none |
| `AllocationDetail.ParentSays` | server-php/app/Services/DocumentPostingService.php:1284-1310 | a parent row carries its rows, their total and their common basis, manual where they differ |
| `ReceiptLandedCost.NormalizeLines` | server-php/app/Services/DocumentService.php:927-990 | entry accepts a document exactly when every emitted row is accepted, and then stores what each line emits |
| `ReceiptLandedCost.EntryAsks` | server-php/app/Services/DocumentService.php:606-632 | what entry asks of a line, in plain terms, a breakdown tying within 0.0100 |
| `ReceiptLandedCost.RowsOfLine` | server-php/app/Services/DocumentService.php:927-990 | one row in the type's or the line's own direction, a transfer's two, all of the line's base quantity |
| `ReceiptLandedCost.BaseQtyIsNear` | server-php/app/Services/DocumentService.php:927-963 | the base quantity is the quantity times its factor to half a unit |
| `ReceiptLandedCost.AmountOnlyWhereCapitalised` | server-php/app/Services/DocumentService.php:606-632 | an accepted amount sits on one inward row of a document that values and moves its stock now |
| `ReceiptLandedCost.RefusedPlaces` | server-php/app/Services/DocumentService.php:606-632 | both legs of a transfer, outward lines and documents that defer their goods are refused any amount |
| `ReceiptLandedCost.LoadedValueIsNear` | server-php/app/Services/DocumentPostingService.php:795-810 | the value of a loaded line is the goods plus the landed cost within 0.00005 x (quantity + 1) |
| `ReceiptLandedCost.ReceiptBorneShares` | server-php/app/Services/DocumentPostingService.php:1189-1222 | for any choice of cost types the shares are the settled parts of those types, the parts as entered where they tie exactly and all but one as entered otherwise, or the whole under other; each names the line, the document and the base quantity |
| `ReceiptLandedCost.AsSharesByType` | server-php/app/Services/DocumentPostingService.php:1202-1222 | the shares filed under any choice of cost types total what the parts of those types were settled at |
| `ReceiptLandedCost.CheckStored` | server-php/app/Services/DocumentPostingService.php:840-896 | posting refuses exactly the stored rows it could not capitalise or the policy no longer allows |
| `ReceiptLandedCost.StoredRowsRefused` | server-php/app/Services/DocumentPostingService.php:840-896 | which those are: any amount where nothing is capitalised; an inward amount with a type the company does not capitalise |
| `ReceiptLandedCost.LinesAreWorth` | server-php/app/Services/DocumentPostingService.php:469-495 | a valued line is worth its goods plus its landed cost within 0.00005 x (quantity + 1); any other keeps nothing |
| `ReceiptLandedCost.LoadLines` | server-php/app/Services/DocumentPostingService.php:469-495 | every valued line is loaded, and the shares collected are what was capitalised, in total and for any choice of cost types |
| `ReceiptLandedCost.PostReceiptBorne` | server-php/app/Services/DocumentPostingService.php:402-533 | refuse and write nothing, or load every line and write the detail of what was capitalised, parent rows type by type |
| `ReceiptLandedCost.EnterAndPost` | server-php/app/Services/DocumentPostingService.php:402-533 | entry and posting in one: posting refuses what entry accepted only where the policy changed in between; stored = entered, parent rows = detail rows, and both are what was entered exactly when every line carrying an amount has a base quantity; where breakdowns tie exactly too, the parent rows of any cost types total what was entered of them |
| `ReceiptLandedCost.NothingIsDropped` | server-php/app/Services/DocumentPostingService.php:402-533 | entered = stored always; entered = detail rows = parent rows exactly when every line carrying an amount has a base quantity |
| `ReceiptLandedCost.QuantityCanRoundAway` | server-php/app/Services/DocumentService.php:927-963 | entry accepts a quantity whose base quantity rounds to nothing, so the condition can fail |
| `LandedCostPosting.AllocateChargeOverLines` | server-php/app/Services/DocumentPostingService.php:1607-1640 | by quantity in proportion to the lines' base quantities, by value to their amounts, or evenly, every share but one rounded to half a unit and the one bearing the rest; or as entered by hand but for one; refused exactly where no line has a quantity, a value, or exists, or a hand-entered share is negative or names no line |
| `LandedCostPosting.CheckCharges` | server-php/app/Services/DocumentPostingService.php:1362-1377 | posting goes on exactly when every charge is well formed and of a cost type the company capitalises |
| `LandedCostPosting.ChargesMustBe` | server-php/app/Services/DocumentPostingService.php:1362-1377 | what that is, in plain terms |
| `LandedCostPosting.SpreadCharges` | server-php/app/Services/DocumentPostingService.php:1397-1419 | every line takes exactly its own share of each charge, each charge spread on its own basis, and the shares tie to the charges cost type by cost type |
| `LandedCostPosting.ParentsTieToCharges` | server-php/app/Services/DocumentPostingService.php:1253-1322 | over any choice of cost types the parent rows of a posting total what its charges total, and on each receipt what the shares on its lines total |
| `LandedCostPosting.PerLineIsShares` | server-php/app/Services/DocumentPostingService.php:1401-1409 | what a line is allotted is what its shares add up to |
| `LandedCostAbsorption.LoadedReceipts.RaiseCostState` | server-php/app/Services/DocumentPostingService.php:1713-1751 | a layer is raised by the unit rate on what remains; an average by the absorbed value over the stock on hand |
| `LandedCostAbsorption.LoadedReceipts.ApplyLandedCost` | server-php/app/Services/DocumentPostingService.php:1362-1492 | refused without a trace, or every line raised, the rows written tying to the charges, and the absorbed total published |
| `LandedCostAbsorption.AbsorptionConserves` | server-php/app/Services/DocumentPostingService.php:1420-1492 | the rise of line valuations = the rise of landed cost on lines = the published amount, for any charges, receipts and bases |
| `LandedCostAbsorption.EachLineAbsorbsItsOwn` | server-php/app/Services/DocumentPostingService.php:1420-1452 | each line gains its own absorbed amount and no other line moves, whatever the order of the lines |
| `LandedCostAbsorption.LineTakesItsPart` | server-php/app/Services/DocumentPostingService.php:1420-1492 | a line gains its allotment in proportion to what of it is still there, to the rounding of rate and amount, in value and landed cost alike; its rate is its amount over its quantity; no other field moves |
| `LandedCostAbsorption.AbsorbedWithinAllotment` | server-php/app/Services/DocumentPostingService.php:1420-1452 | over the whole posting no line's valuation or landed cost moves, in either direction, by more than its allotment + 0.00005 x (base quantity + 1), a layer holding no more than its line brought |
| `LandedCostStores.AbsorbedWithinAllotmentOnRuns` | server-php/app/Services/DocumentPostingService.php:1420-1452 | on the layers of any run of receipts, issues and reversals that bound holds without the condition |
| `LandedCostStores.TablesRiseByTheEffect` | server-php/app/Services/DocumentPostingService.php:1420-1492 | layers and averages together rise by the published effect, to half a unit a layered line and half a unit of rate a unit on hand of an averaged one |
| `LandedCostAbsorption.BothMethodsAbsorbTheSame` | server-php/app/Services/DocumentPostingService.php:1642-1751 | on one run, whatever the dates, the FIFO and the weighted-average branches absorb the same on every receipt at every rate exactly when no issue left its last 0.0001 undrawn and the layers are drawn oldest first |
| `StockLedger.Ledger.ApplyBalance` | server-php/app/Services/StockBalanceService.php:64-89 | one balance row moves by the delta, created when absent; no other moves |
| `StockLedger.Ledger.PostDocument` | server-php/app/Services/DocumentPostingService.php:453-521 | posted, every moving line has its one movement and every key holds what it did plus what the inward lines bring less what the outward take; or the ledger is as it was and the document FAILED |
| `StockLedger.PostingMovesStock` | server-php/app/Services/DocumentPostingService.php:509-516 | every key holds what it did plus the base quantities of the document's inward lines on it less those of its outward lines, in the balances and on the ledger alike |
| `StockLedger.PostIsAllOrNothing` | server-php/app/Services/DocumentPostingService.php:453-521 | the same with the document's value: its valued lines, inward less outward |
| `StockLedger.BlockedIffShort` | server-php/app/Services/DocumentPostingService.php:978-1012 | where negative stock is blocked a line is refused exactly when it would take what its item, warehouse and batch have below -0.0001 |
| `StockLedger.Ledger.ReverseDocument` | server-php/app/Services/DocumentPostingService.php:325-336 | every physical movement is booked back once: every key gives back what the document moved there |
| `StockLedger.ReverseGivesBack` | server-php/app/Services/DocumentPostingService.php:325-336 | a posted document reversed is marked so, gives back on every key what it had moved, and leaves the movements before it and every other document as they were |
| `StockLedger.PostThenReverseRestores` | server-php/app/Services/DocumentPostingService.php:325-336 | posted and then reversed on any run, a document leaves every balance where it was |
| `StockLedger.Ledger.ReviseDocument` | server-php/app/Services/DocumentPostingService.php:263-290 | reverse, create and post together, or nothing |
| `StockLedger.RevisionReplaces` | server-php/app/Services/DocumentPostingService.php:263-290 | a revision changes nothing, or leaves the old document reversed and the new one posted in its place on every key |
| `StockLedger.BalancesAgreeWithLedger` | server-php/app/Services/DocumentPostingService.php:263-336 | after any run of posts, failed posts, reversals and revisions every balance is its opening plus its movements, each physical movement has at most one reversal, and a reversed document sums to zero in quantity and value |
| `StockLedger.TransferKeepsItemTotals` | server-php/app/Services/DocumentService.php:954-963 | a posted transfer leaves each item's total over all warehouses unchanged: on the ledger, and over its balance rows, all of them or any one batch's |
| `StockLedger.TransferMovesStock` | server-php/app/Services/DocumentService.php:954-963 | a posted transfer takes its goods off the warehouses they leave and puts them in those they reach |
| `StockRevaluation.CostTables.RepriceTheLayers` | server-php/app/Services/DocumentPostingService.php:1146-1175 | every layer with stock takes the new cost; the delta is the exact change in its stored value |
| `StockRevaluation.CostTables.ReplaceTheAverage` | server-php/app/Services/DocumentPostingService.php:1146-1175 | the average is replaced; the delta is the exact change in its stored value |
| `StockRevaluation.CostTables.ApplyRevaluation` | server-php/app/Services/DocumentPostingService.php:1146-1175 | refused untouched, or every line applied in turn with its rounded delta stamped and the rounded total published |
| `StockRevaluation.ChangesTelescope` | server-php/app/Services/DocumentPostingService.php:1146-1175 | for any lines, repeated items included, the lines' changes add up to the change in stored value of all layers and averages |
| `StockRevaluation.LayersEndAtTheCostGiven` | server-php/app/Services/DocumentPostingService.php:1146-1175 | every layer with stock ends at the cost last given for its item and scope, every other field and layer as it was |
| `StockRevaluation.AveragesEndAtTheCostGiven` | server-php/app/Services/DocumentPostingService.php:1146-1175 | and every average |
| `StockRevaluation.EffectIsRoundedChange` | server-php/app/Services/DocumentPostingService.php:1146-1175 | the published effect is the rounded total change: the threshold withholds only zero |
| `StockRevaluation.LinesAddUpToTheEffect` | server-php/app/Services/DocumentPostingService.php:1146-1175 | the stamped line deltas add up to the effect within 0.00005 a line |
| `PeriodLock.AssertPeriodOpen` | server-php/app/Services/DocumentPostingService.php:1884-1894 | refuses exactly the dates up to the latest unreleased lock of the company or the branch |
| `PeriodLock.PostGoes` | server-php/app/Services/DocumentPostingService.php:68-148 | an entered document in an open period posts with its valuation and its movements, on its own branch and date, or fails for what it would load; any other is left alone |
| `PeriodLock.LoadsLand` | server-php/app/Services/DocumentPostingService.php:1440-1480 | a landed cost leaves every receipt it loads with the lines it gives it |
| `PeriodLock.ReverseGoes` | server-php/app/Services/DocumentPostingService.php:292-336 | a posted document in an open period is reversed at the value it moved, on the same dates, branches and warehouses |
| `PeriodLock.ReviseGoes` | server-php/app/Services/DocumentPostingService.php:263-290 | a revision changes nothing, or reverses its document and posts its replacement as entered |
| `PeriodLock.LockFreezesItsPeriod` | server-php/app/Services/DocumentPostingService.php:1857-1894 | while a lock stands no run of edits, posts, failed posts, reversals, revisions and landed-cost loads changes a movement or a posted document it covers, or adds one |
| `ValuationBridge.MovementValueTotals` | server-php/app/Services/DashboardMetricsService.php:557-624 | the accumulation over grouped rows yields, for the window, the sums over the ledger: net, per flow, unvalued, reversals, revaluations |
| `ValuationBridge.Valuation` | server-php/app/Services/DashboardMetricsService.php:502-545 | the bridge of a window is the opening before it and the sums within it, over the ledger alone |
| `ValuationBridge.GroupingKeepsTotals` | server-php/app/Services/DashboardMetricsService.php:575-590 | grouping by type and kind loses nothing for any choice of groups |
| `ValuationBridge.BridgeCloses` | server-php/app/Services/DashboardMetricsService.php:502-545 | the five flows carry opening to closing, for every ledger and window |
| `ValuationBridge.BridgeIsTheLedger` | server-php/app/Services/DashboardMetricsService.php:502-545 | every figure of the bridge off the ledger: opening before the window, closing up to its end, flows, reversals and revaluations within it |
| `ValuationBridge.MovementAlone` | server-php/app/Services/DashboardMetricsService.php:575-590 | a movement adds its value to its own gross half, is counted, and counted apart where it has none |
| `ValuationBridge.GrossHalves` | server-php/app/Services/DashboardMetricsService.php:575-590 | net is gross in less gross out, both non-negative |
| `ValuationBridge.BridgeEndsAtTheLedger` | server-php/app/Services/DashboardMetricsService.php:502-545 | closing is the sum of everything valued up to the window's end |
| `ValuationBridge.BridgesChain` | server-php/app/Services/DashboardMetricsService.php:502-545 | one window's closing is the next one's opening |
| `ValuationBridge.LockFixesTheBridge` | server-php/app/Services/DocumentPostingService.php:1857-1894 | a standing lock fixes the bridge of every window ending under it, for the branch it covers or the whole company when it is the company's |
| `ValuationBridge.BranchLockLeavesTheCompanyOpen` | server-php/app/Services/DocumentPostingService.php:1884-1894 | a branch's lock does not fix the company's bridge: another branch still posts into the window |
| `WeightedAverage.WacTable.ReverseLine` | server-php/app/Services/DocumentPostingService.php:1785-1828 | the two branches of the unwind on the scope's row, a missing row created; a line never valued changes nothing |
| `WeightedAverage.ReversalStartsFromNothing` | server-php/app/Services/DocumentPostingService.php:1793-1823 | a scope without a row starts from nothing; a line without a quantity or never valued leaves the row alone |
| `WeightedAverage.OutwardThenInward` | server-php/app/Services/DocumentPostingService.php:1812-1822 | outward then inward gives the quantity back from every state; on more than 0.0001 it restores the average within 0.00005 x (2 + b / q), on less the inward branch keeps the average the outward one left |
| `WeightedAverage.OutwardThenInwardDrifts` | server-php/app/Services/DocumentPostingService.php:1812-1822 | the average can come back different |
| `WeightedAverage.InwardThenOutward` | server-php/app/Services/DocumentPostingService.php:1812-1822 | inward then outward gives the quantity back from every state, and the state whole exactly when: 2 (b r - q a) < q where more than 0.0001 stays; -q <= 2 (b r - b a) < q where less stays of more than that; always where no more was held |
| `WeightedAverage.ReversalsMoveTheRecordedQuantity` | server-php/app/Services/DocumentPostingService.php:1793-1828 | over any list of reversed lines the quantity moves by the valued lines alone and the average is never negative |
| `Approval.DocumentTable.UpdateDocument` | server-php/app/Services/DocumentService.php:116-151 | an edit is a new version and sends an approved or submitted document back to draft |
| `Approval.DocumentTable.Transition` | server-php/app/Services/DocumentService.php:1014-1026 | a transition succeeds exactly from its own statuses and changes the status alone |
| `Approval.DocumentTable.Cancel` | server-php/app/Services/DocumentService.php:283-295 | exactly the editable documents can be cancelled |
| `Approval.EditStores` | server-php/app/Services/DocumentService.php:116-151 | an edit stores the lines it was given, counts a version and sends the document back to draft, a failed one staying failed |
| `Approval.AmendmentKeepsGoods` | server-php/app/Services/DocumentService.php:170-205 | amending a posted job-work challan changes declared values and nothing it moves |
| `Approval.StepsGo` | server-php/app/Services/DocumentService.php:265-295 | the statuses submit, approve, reject, cancel and reverse leave and reach |
| `Approval.PostGoes` | server-php/app/Services/DocumentPostingService.php:68-148 | a posting that passes its guards commits, fails or leaves no trace; one that does not changes nothing |
| `Approval.RevisionGoes` | server-php/app/Services/DocumentPostingService.php:263-290 | when a revision commits, and what it leaves |
| `Approval.DocumentTable.PostDocument` | server-php/app/Services/DocumentPostingService.php:68-148 | posts, fails or leaves the document untouched, and POSTING is rolled back with its transaction |
| `Approval.DocumentTable.ReverseDocument` | server-php/app/Services/DocumentPostingService.php:292-303 | only posted documents are reversed; reversing again answers without effect |
| `Approval.DocumentTable.ReviseDocument` | server-php/app/Services/DocumentPostingService.php:263-290 | the revision commits exactly when its three parts do |
| `Approval.PostingIsNeverCommitted` | server-php/app/Services/DocumentPostingService.php:104-150 | no run ever leaves a document POSTING on disk |
| `Approval.TerminalForever` | server-php/app/Services/DocumentService.php:283-295 | REVERSED and CANCELLED rows never change again, over every continuation |
| `Approval.PostedIsApproved` | server-php/app/Services/DocumentPostingService.php:91-94 | under approval required and not skipped a revision is refused whole, and a document becomes POSTED only if some earlier step approved it and no step since touched its row: the version posted is the version approved |
| `Approval.FailedNeedsApprovalAgain` | server-php/app/Services/DocumentService.php:265-281 | a failed posting under approval goes nowhere until it is submitted and approved again |
| `GroupRepair.RepairTables.CollectMoves` | server-php/app/Commands/InventoryRepairItemGroupCodes.php:195-253 | the plan moves exactly the lone items without a code, skips exactly the lone items with one, and lists exactly the empty groups |
| `GroupRepair.RepairTables.VerifyCodes` | server-php/app/Commands/InventoryRepairItemGroupCodes.php:267-312 | passes exactly when every code is non-empty, fits in 64, differs from the others folded and from every staying item's folded code |
| `GroupRepair.RepairTables.VerifyNoChildrenOrphaned` | server-php/app/Commands/InventoryRepairItemGroupCodes.php:324-349 | passes exactly when no live group outside the retiring ones has a retiring parent |
| `GroupRepair.RepairTables.BuildPlan` | server-php/app/Commands/InventoryRepairItemGroupCodes.php:195-264 | a plan comes back exactly with both checks passed |
| `GroupRepair.RepairTables.Apply` | server-php/app/Commands/InventoryRepairItemGroupCodes.php:121-166 | items, groups and log after the run |
| `GroupRepair.RepairGivesCodes` | server-php/app/Commands/InventoryRepairItemGroupCodes.php:195-253 | the only live item of a live group, without a code, goes to the target under the group's trimmed name; every other item is as it was |
| `GroupRepair.RepairRetiresGroups` | server-php/app/Commands/InventoryRepairItemGroupCodes.php:121-166 | a group is retired exactly when it was empty or its only item was moved |
| `GroupRepair.CodesMayBeGiven` | server-php/app/Commands/InventoryRepairItemGroupCodes.php:267-312 | no code empty or over 64, no two alike folded, none carried by an item that stays |
| `GroupRepair.RepairTables.Undo` | server-php/app/Commands/InventoryRepairItemGroupCodes.php:352-399 | the run's rows alone are read back and taken off the log |
| `GroupRepair.ApplyKeepsIntegrity` | server-php/app/Commands/InventoryRepairItemGroupCodes.php:121-166 | applying a checked plan keeps folded codes unique among live items, live items in live groups and live groups under live parents |
| `GroupRepair.UndoRestores` | server-php/app/Commands/InventoryRepairItemGroupCodes.php:352-399 | undo after apply gives back all three tables exactly when every moved item's code was null and every retired group was active |
| `Heartbeat.CronHeartbeat.Finish` | server-php/app/Services/CronHeartbeat.php:328-372 | a finish is sent, held or dropped by the three flags; a second one is dropped |
| `Heartbeat.CronHeartbeat.Settle` | server-php/app/Services/CronHeartbeat.php:436-470 | the held finish goes out once, the outside verdict only ever making it worse, the counts kept |
| `Heartbeat.CronHeartbeat.HandleFatalErrorAtShutdown` | server-php/app/Services/CronHeartbeat.php:398-424 | a fatal error files the failure of a run not yet sent, with the counts it held |
| `Heartbeat.ReportRun` | server-php/app/Services/CronHeartbeat.php:180-198 | a configured monitor gets one start and exactly one finish with its run id, unless the run died silently; ok exactly when the code is zero, nothing threw or died and the first report was not a failure; counts of the first report |
| `Heartbeat.DriveByHand` | server-php/app/Services/CronHeartbeat.php:204-248 | driven by hand the first report is sent at once and is the only one |
| `Heartbeat.VerdictsSay` | server-php/app/Services/CronHeartbeat.php:436-470 | the verdict first, then that the work had claimed success, then what it had said |
| `Heartbeat.FatalErrorsSay` | server-php/app/Services/CronHeartbeat.php:398-424 | a fatal error is named as one, and keeps a claim of success it overtook |
| `CanonicalRequest.CanonicalForm` | server-php/app/Services/IdempotencyService.php:66-88 | the loop keeps the entries not ignored, normalises each and sorts objects by key |
| `CanonicalRequest.RoundedNear` | server-php/app/Services/IdempotencyService.php:83-85 | rounding moves a figure at most half of its sixth place, onto a whole number of them |
| `CanonicalRequest.FourKeysAreIgnored` | server-php/app/Services/IdempotencyService.php:71-74 | which keys are left out |
| `CanonicalRequest.IntegersReadBack` | server-php/app/Services/IdempotencyService.php:77-79 | an integer key written out is a numeric name, and the same number |
| `CanonicalRequest.CanonicalEntries` | server-php/app/Services/IdempotencyService.php:66-88 | a normalised array is sorted and holds exactly the kept entries |
| `CanonicalRequest.CanonicalForms` | server-php/app/Services/IdempotencyService.php:59-88 | two bodies have one normal form exactly when they are the same up to key order, the four ignored keys and rounding at six places, at every depth |
| `CanonicalRequest.NormalizeIsIdempotent` | server-php/app/Services/IdempotencyService.php:66-88 | normalising twice is normalising once |
| `CanonicalRequest.ReorderedIsSame` | server-php/app/Services/IdempotencyService.php:66-88 | reordering an object and putting context keys in or out anywhere keeps the form |
| `CanonicalRequest.OrderForgottenIffRanked` | server-php/app/Services/IdempotencyService.php:77-79 | however the entries of an object come they sort to one list exactly when the comparison of keys decides every two of them and never runs in a circle |
| `CanonicalRequest.OrdinaryKeysRank` | server-php/app/Services/IdempotencyService.php:77-79 | integer keys do, and so do names none of which is a number |
| `CanonicalRequest.CircleIsNotRecognised` | server-php/app/Services/IdempotencyService.php:66-88 | keys 9, 10 and 5x do not: one object in two orders has two forms |
| `CanonicalRequest.NumberedObjectIsAList` | server-php/app/Services/IdempotencyService.php:66-88 | an object with integer names out of order becomes the list they number |
| `CanonicalRequest.EmptyObjectIsTheEmptyList` | server-php/app/Services/IdempotencyService.php:66-88 | an object left empty by the ignored keys is the empty list |
| `TablePasses.NoProgressNoOrder` | server-php/app/Commands/InventoryPurgeCompany.php:308-318 | after a pass without progress none of the tables left can go, so no ordering of them can start |
| `TablePasses.ChainsBoundThePasses` | server-php/app/Commands/InventoryPurgeCompany.php:277-282 | as many passes as the longest chain has tables clear everything |
| `TablePasses.PassesFindAnOrder` | server-php/app/Commands/InventoryPurgeCompany.php:277-282 | with as many passes as tables, the passes clear everything exactly when some order exists |
| `TablePasses.OrderableIffAcyclic` | server-php/app/Commands/InventoryPurgeCompany.php:277-282 | an order exists exactly when nothing is held for good and the references among the tables are acyclic |
| `CompanyPurge.DeleteGoes` | server-php/app/Commands/InventoryPurgeCompany.php:291-307 | a DELETE succeeds exactly when no row that is left refers into the table |
| `CompanyPurge.WhoseRowsGo` | server-php/app/Commands/InventoryPurgeCompany.php:277-300 | the company's rows of the tables listed and not retained go, and nobody else's |
| `CompanyPurge.WhoseRowsAreKept` | server-php/app/Commands/InventoryPurgeCompany.php:255-262 | exactly those are copied, as they are |
| `CompanyPurge.InsertGoes` | server-php/app/Commands/InventoryPurgeCompany.php:452-466 | an INSERT succeeds exactly when its keys are free and every row it refers to is back |
| `CompanyPurge.Database.DeleteInPasses` | server-php/app/Commands/InventoryPurgeCompany.php:277-327 | empties every table within twelve passes, or names the reason: no order exists, or more than twelve tables |
| `CompanyPurge.Database.Purge` | server-php/app/Commands/InventoryPurgeCompany.php:200-351 | purged exactly under the guards and when twelve passes suffice: every row of another company or of a retained table still there unchanged, every row of the company in a listed, unretained table gone and in the archive as it was, and no row of another company copied; otherwise rows and archive unchanged |
| `CompanyPurge.Database.InsertInPasses` | server-php/app/Commands/InventoryPurgeCompany.php:443-488 | puts everything back exactly when twelve passes suffice |
| `CompanyPurge.Database.Restore` | server-php/app/Commands/InventoryPurgeCompany.php:415-505 | restored exactly when twelve passes suffice; otherwise unchanged |
| `CompanyPurge.RestoreUndoesPurge` | server-php/app/Commands/InventoryPurgeCompany.php:415-505 | where references run in chains of at most n <= 12 tables, purge and restore each take at most n passes and the restore gives back exactly the original rows |
| `CompanyPurge.PurgedCanBeRestored` | server-php/app/Commands/InventoryPurgeCompany.php:415-505 | whatever was purged can be put back in some order: only the limit on passes can stop it |
| `CompanyPurge.LongChainsCannotComeBack` | server-php/app/Commands/InventoryPurgeCompany.php:443-500 | a chain of n tables in the order of their names is purged in one pass and restored exactly when n <= 12 |
| `HandoffTracker.Tracker.Claim` | server-php/app/Services/BooksJournalHandoffTracker.php:72-100 | a new waiting row under a fresh id, or nothing without the table |
| `HandoffTracker.Tracker.Transition` | server-php/app/Services/BooksJournalHandoffTracker.php:116-127 | an unconditional move of one row; settling closes it |
| `HandoffTracker.Tracker.RecordFailure` | server-php/app/Services/BooksJournalHandoffTracker.php:130-143 | one more failed attempt, due after the back-off, or never again at the twelfth |
| `HandoffTracker.Tracker.CompleteForEvent` | server-php/app/Services/BooksJournalHandoffTracker.php:153-162 | exactly the event's rows still waiting become accepted |
| `HandoffTracker.Tracker.DueRepairs` | server-php/app/Services/BooksJournalHandoffTracker.php:172-190 | the queue: the due rows in key order, cut at the limit |
| `HandoffTracker.DueAreDue` | server-php/app/Services/BooksJournalHandoffTracker.php:172-190 | a row is in the queue exactly when it is a decided reversal, has attempts left and its time has come |
| `HandoffTracker.DueInOrder` | server-php/app/Services/BooksJournalHandoffTracker.php:172-190 | the queue is served oldest first |
| `HandoffTracker.BackoffDoublesThenHolds` | server-php/app/Services/BooksJournalHandoffTracker.php:193-196 | 30 seconds, doubling to the sixth failure, then half an hour |
| `HandoffTracker.RetriedTwelveTimes` | server-php/app/Services/BooksJournalHandoffTracker.php:130-190 | a decided reversal is retried through exactly twelve failures, each after its back-off |
| `HandoffTracker.MovesSettle` | server-php/app/Services/BooksJournalHandoffTracker.php:116-127 | a move takes the next repair off the clock and closes the row when it settles it |
| `HandoffTracker.DeliveryAccepts` | server-php/app/Services/BooksJournalHandoffTracker.php:153-162 | a delivery accepts a row still waiting and changes no other |
| `BooksHandoff.BooksHoldsNoJournal` | server-php/app/Services/BooksJournalHandoff.php:199-222 | only an answer says Books applied nothing: a 4xx, an apply failure, or a failed event |
| `BooksHandoff.EveryRunKeeps` | server-php/app/Services/DocumentPostingService.php:96-246 | the invariants of the protocol over every interleaving of the request, any number of dispatchers each reading, sending and recording at its own time, sweeps, operator replays, manual reversal, crashes, lost writes and lost replies |
| `BooksHandoff.JournalsAreOfCommittedDocuments` | server-php/app/Services/BooksJournalHandoff.php:15-24 | Books never holds a journal, nor has seen an event, of a document that did not commit |
| `BooksHandoff.MissingJournalIsOnDisk` | server-php/app/Services/DocumentPostingService.php:118-127 | a POSTED document without a journal has an undelivered event row, and an unsettled handoff row if it was waited for |
| `BooksHandoff.DecidedForever` | server-php/app/Services/BooksJournalHandoffTracker.php:145-162 | once a reversal is decided no delivery, completion or acceptance takes it back, over every continuation |
| `BooksHandoff.SweepRepairs` | server-php/app/Services/OutboxService.php:293-322 | on every run a repair that is due takes the posted document back, its reversal queued and its row closed |
| `BooksHandoff.SweepTriesAgain` | server-php/app/Services/OutboxService.php:293-322 | a repair that fails leaves the document as it was and one more failure on its row |
| `BooksHandoff.RequestUndoes` | server-php/app/Services/DocumentPostingService.php:162-198 | the request's undo does the same, going on to retire the events where Books refused |
| `BooksHandoff.RequestRetires` | server-php/app/Services/OutboxService.php:264-281 | what is still queued is retired, and nothing else |
| `BooksHandoff.FailedUndoIsDue` | server-php/app/Services/BooksJournalHandoff.php:165-187 | an undo that dies once decided leaves its row due at once; one that fails, after 30 seconds |
| `BooksHandoff.AnswerDecides` | server-php/app/Services/OutboxService.php:184-213 | what Books makes of the request's delivery decides what the request hears |
| `BooksHandoff.AnswerIsRecorded` | server-php/app/Services/OutboxService.php:222-255 | taken it completes and the row is acknowledged; refused or unheard it undoes, the row queued again or dead at the twentieth |
| `BooksHandoff.RequestCompletes` | server-php/app/Services/BooksJournalHandoff.php:228-238 | a request that was taken closes its row accepted |
| `BooksHandoff.PostCommits` | server-php/app/Services/DocumentPostingService.php:96-150 | a document that commits is posted with its event due and, if waited for, its row waiting; one that does not is failed and nothing else |
| `BooksHandoff.DispatchDelivers` | server-php/app/Services/OutboxService.php:95-131 | a due row that is read and taken ends acknowledged, a posting's closing the row still waiting |
| `BooksHandoff.FailedDeliveryCounts` | server-php/app/Services/OutboxService.php:241-252 | any other delivery counts, and the twentieth ends the row |
| `BooksHandoff.AgreesUnlessStrandedOrOvertaken` | server-php/app/Services/DocumentPostingService.php:151-246 | over every run that drains the outbox the two sides agree (journal exactly if POSTED) exactly when no journal was left behind a retired reversal and Books applied no posting behind its reversal |
| `BooksHandoff.StrandingTells` | server-php/app/Services/OutboxService.php:222-281 | a journal is left behind a retired reversal by exactly two steps, the retirement of a reversal Books needs and the landing of a posting whose reversal is retired, and brought back by exactly three: a reversal read earlier landing or recording its failure, or an operator's replay |
| `BooksHandoff.DrainedAgrees` | server-php/app/Services/DocumentPostingService.php:151-246 | in event order a journal behind a retired reversal is all that can part them |
| `BooksHandoff.HandsOffAgrees` | server-php/app/Services/DocumentPostingService.php:151-246 | in event order, with no dispatcher reading the document's events while its request lives and nobody replaying retired ones, they always agree |
| `BooksHandoff.RedeliveryBeforeRetirement` | server-php/app/Services/OutboxService.php:264-281 | in event order: redelivery between the refusal and the retirement leaves a journal for a REVERSED document |
| `BooksHandoff.LandsAfterRetirement` | server-php/app/Services/OutboxService.php:95-131 | in event order: a row a dispatcher read before the refusal is sent after the retirement, and leaves one too |
| `BooksHandoff.ReversalOvertakes` | server-php/app/Services/OutboxService.php:95-131 | out of event order: the posting waits out its back-off, the reversal goes first and undoes nothing |
| `BooksHandoff.ReversalOfNothing` | server-php/app/Services/OutboxService.php:264-281 | a reversal may go first and still do no harm: its posting was refused and is retired unapplied |

## Left out

- BooksHandoff.EveryRunKeeps: one document and its one posting episode; the status and event rows of one transaction change in one step.
- CostLayers.ConsumeLayers: the amount, rate and shortfall of an issue are `LayerReversal.CostLayerTable.IssueStock`.
- CanonicalRequest.CanonicalForms: numbers among names are exact, where the host language compares very long ones as floating point.
- StockLedger.Ledger.PostDocument: serial numbers, reservations, pending quantities and status buckets; the negative-stock policy is one flag.
- PeriodLock.LockFreezesItsPeriod: financial-year ranges and warehouse permissions; recalculation jobs, which write revisions of their own.
- LandedCostAbsorption.LoadedReceipts.ApplyLandedCost: the refusals that look at the target documents (their status and their open period, which `PeriodLock` keeps) and the warning about what was not absorbed.
- AllocationDetail.AllocationTable.WriteLandedCostAllocation: the amounts per unit and the Books account reference kept on each row.
- ReceiptLandedCost.NormalizeLines: the checks of items, units and physical counts on a line.
- ReceiptLandedCost.PostReceiptBorne: the landed-cost half of posting a receipt; its other half is `StockLedger`.
- ReceiptLandedCost.LoadLines: where an unlanded unit cost comes from (source rate, purchase, originating issue, last known cost); it is a parameter.
- Heartbeat.ReportRun: trimming of messages, cleaning of counts, a failing run-id generator and a fatal error inside the settling itself.
- Approval.DocumentTable.PostDocument: the other guards of posting are one flag, and audit and approval-log rows are not kept.
- GroupRepair.RepairTables.VerifyCodes: case folding is over ASCII, not Unicode; chunking of queries.
- CompanyPurge.Database.Purge: statements that fail for reasons other than references, and the read-back after commit, which under the assumptions always agrees.
- HandoffTracker.Tracker.Transition: the text of errors, the HTTP status and the actor stored on a row.
- Whether a post waits for Books (`enabledFor`) is a parameter of the posting step.
- PHP floating point: figures are exact multiples of 0.0001.
- Valuation methods' opening seeding and historic fallback costs, FY carry-forward, BOM, dashboards' counters, job-work summaries, HTTP, CLI text and the web and mobile clients.
