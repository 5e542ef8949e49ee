# Store, sessions, numbering and reports: a verified model

This project models the core of the ERP backend in Dafny and proves what it keeps.

- **The store.** `StockEngine` is the only writer of two tables that tell the same story: on-hand rows keyed by
  company, material, batch, warehouse, location and status, and an append-only ledger with running balances. Goods
  receipts, inspections, reservations, issues, returns, transfers, dispatches and finished-goods receipts all write
  stock through it. The tables are fields of one class, `Tables.Database`; every service operation is a method that
  updates them step by step and is proved equal to a function from database value to database value, which also says
  when it throws and that a throw changes nothing. `Runs` turns those functions into one state machine and proves what
  every run keeps.
- **The allocators.** The FIFO/FEFO picks and the priority consume loop, with their optimality and exactness.
- **Sessions.** Families of refresh tokens under login, rotation with a grace period, logout, revocation, pruning and
  a clock.
- **Printing.** Document numbers, CSV reports, one-page PDF files and the aging report, each with a reader or an
  independent definition as its partner.

`Runs.Step` takes each request, with its reads and its transaction, as one atomic step. Time, permissions, company
policy and the outcome of a credential check are inputs. Quantities are reals. A query that finds the first of several
rows takes the first in the table's order, and an ORDER BY leaves ties in that order; the order may change arbitrarily
between requests (`Runs.Op.Reorder`), and, as the reservations of a material request are transactions of their own,
before every query of such a request (`Production.Shuffles`). Master data may be edited arbitrarily at any time
(`Runs.Op.EditMasters`).

## Modules

| files | contents |
|---|---|
| `Base`, `Sequences`, `Sorting`, `Numerals`, `Tables` | results and options, facts about sequences, the database's ORDER BY, decimal numerals, all tables |
| `StockEngine`, `FifoEngine`, `ReservationEngine` | the three engines with their own laws |
| `Workflow`, `Grn`, `Issue`, `Production`, `Dispatching` | the services, as functions and as methods |
| `Invariants`, `GrnLaws`, `IssueLaws`, `ProductionLaws`, `Runs` | what steps and runs keep |
| `Destinations`, `Receipts`, `Requests` | when each service operation succeeds, where goods go, and what it records, field by field |
| `AutoReserve`, `AnyOrder`, `AnyRequest` | what automatic reservation moves, and when it cannot fail half-way |
| `Cases` | runs from an empty database in which the code falls short |
| `Auth`, `AuthLaws` | the session service and its laws |
| `DocumentSeries`, `Csv`, `PdfText`, `Utf8`, `PdfFile`, `PdfLaws`, `StorePolicy`, `Aging` | numbering and reports |

## Where the code falls short of what one might expect

Each is stated as an exact condition, both ways, most beside a concrete case.

- Reserved stock never exceeds active reservations, but the two are equal after a run exactly when every issue line
  served from reserved stock was covered by matching reservations when it was served (`Runs.RunTightExactlyWhen`): only
  an issue for a production order can fail this, when the order holds less of the lot than the line takes
  (`IssueLaws.CoveredExactlyWhen`, `IssueLaws.WithoutOrderCovered`, `Cases.ForeignStockIssued`).
- Hold stock balances after an inspection exactly when a line followed by another on the same item decides nothing:
  the later one overwrites the counters of the earlier one (`GrnLaws.QcBalancesExactlyWhen`,
  `Cases.TwiceInOneInspection`).
- A receipt leaves inspection as soon as every pending item is mentioned; its hold stock is gone only if the lines
  decide all that was undecided (`GrnLaws.QcLeavesPendingExactlyWhen`, `GrnLaws.QcClearsHoldExactlyWhen`,
  `Cases.HoldVerdictStrandsStock`).
- A reservation that names no batch succeeds exactly when the oldest row alone holds the quantity
  (`ProductionLaws.WithoutBatchExactlyWhen`, `Cases.TotalDoesNotSuffice`).
- The stock of a GRN line's lot is what was received, plus finished and returned, less issued and shipped, exactly when
  the line's damaged part lies between nothing and all of it: nothing stops it from being more
  (`Runs.ReachableReceipts`, `Cases.DamageBeyondReceived`).
- Document numbers are fresh exactly while no more rows share the prefix than one scan reads
  (`DocumentSeries.FreshExactlyWithinLimit`).
- Replacement chains hold at every point of a run exactly when every refresh on it issues a token that expires no
  sooner than the one it spends, or lives as long as revoked tokens are kept (`AuthLaws.RunHoldsExactlyWhen`);
  shortening the lifetime breaks them (`AuthLaws.ShorterLifetimeBreaksChains`), one lifetime throughout never does
  (`AuthLaws.RunLinked`).
- Automatic reservation can fail after it has written, because a pick names a batch and a warehouse but not the row it
  was suggested for, and the code asks for no order among such rows. A line cannot fail, whatever its quantity and in
  whatever order the database answers, exactly when the available rows of each batch in each warehouse all hold the same
  (`AnyOrder.WantReservesExactlyWhen`). A request cannot, whatever its lines, exactly when each batch has at most one
  available row a warehouse (`AnyRequest.RequestsFailOnlyRefusedExactlyWhen`), for a first line can leave equal rows
  unequal. `Cases.OtherOrderFails` is a run. If rows keep their order from suggestion to reservation, nothing fails
  (`AutoReserve.WantsReserveInOrder`).
- Text in a PDF comes back byte for byte exactly when it holds no carriage return (`PdfLaws.TextComesBackExactlyWhen`).

One more is latent. A CSV report reads back exactly when its header keys need no quotes, for cells are quoted and keys
are not (`Csv.RoundTripExactlyWhen`). No caller can bring this about today: the printer is private and every caller's
keys are identifiers.

## Model

| member | source | states |
|---|---|---|
| StockEngine.Add | src/modules/store/engines/stock.engine.ts:39-111 | raises the key's only row or creates it, appends one entry with the new balance, changes no other table; a non-positive quantity or unknown batch changes nothing |
| StockEngine.Deduct | src/modules/store/engines/stock.engine.ts:113-174 | lowers the key's row and appends a negative entry with the new balance; fails without change when there is no row or too little |
| StockEngine.Move | src/modules/store/engines/stock.engine.ts:176-223 | deducts under one key and adds under the other, which may be the same key; on failure only stock differs, for the caller to roll back |
| StockEngine.GetQty | src/modules/store/engines/stock.engine.ts:24-37 | with one row per key, the quantity found is the sum over all rows of that key |
| StockEngine.RowHoldsKey | src/modules/store/engines/stock.engine.ts:24-37 | with distinct keys, a key's sum is the quantity of the row a lookup finds, and zero where it finds none |
| StockEngine.AddedAgrees | src/modules/store/engines/stock.engine.ts:54-107 | adding keeps ledger agreement and shifts every query's sum by the quantity or not at all |
| StockEngine.DeductedAgrees | src/modules/store/engines/stock.engine.ts:128-170 | deducting keeps ledger agreement and shifts every query's sum by minus the quantity or not at all |
| StockEngine.MovedAgrees | src/modules/store/engines/stock.engine.ts:190-220 | a move keeps ledger agreement, coinciding source and target included, and transfers between any two queries exactly its quantity |
| StockEngine.AddedExactlyWhen | src/modules/store/engines/stock.engine.ts:39-111 | under ledger agreement adding succeeds exactly for a positive quantity of a known batch, and the entry shows what then lies under the key |
| StockEngine.DeductedExactlyWhen | src/modules/store/engines/stock.engine.ts:113-174 | deducting succeeds exactly for a positive quantity no larger than the sum under the key, and the entry shows what is left of it |
| StockEngine.MovedExactlyWhen | src/modules/store/engines/stock.engine.ts:176-223 | a move succeeds exactly when the source holds the positive quantity and the target names a known batch; its two entries show what then lies on either side |
| StockEngine.BalanceAt | src/modules/store/engines/stock.engine.ts:88-104 | any entry's balance is the net quantity posted under its key up to and including it |
| StockEngine.SumByStatusAgrees | src/modules/store/engines/stock.engine.ts:225-231 | in whatever order rows are stored, the sum over a company's positive rows in a status is the net quantity the ledger posted in it |
| FifoEngine.SuggestBatches | src/modules/store/engines/fifo.engine.ts:10-80 | the loop yields the greedy picks over the positive rows in FIFO or FEFO order, the shortfall and whether the quantity is covered |
| FifoEngine.ShelfOrders | src/modules/store/engines/fifo.engine.ts:30-49 | the rows considered are exactly the positive rows of the query, each as often as stored, sorted oldest first |
| FifoEngine.ShelfByFields | src/modules/store/engines/fifo.engine.ts:39-49 | of any two rows considered the later one's batch did not arrive earlier, nor with the same date a smaller number; with expiry, is not dated where the earlier is not, nor expires earlier, nor with the same expiry arrived earlier |
| FifoEngine.SuggestsOldestFirst | src/modules/store/engines/fifo.engine.ts:20-72 | by the batches' own dates and numbers: any selected row whose batch is strictly older than a picked one was picked before it, expiry counting only for companies and materials with it |
| FifoEngine.PicksTakeMinimum | src/modules/store/engines/fifo.engine.ts:59-72 | picks come row by row from the front, positive and within each row, and total the smaller of the quantity and the stock |
| FifoEngine.SuggestionCovers | src/modules/store/engines/fifo.engine.ts:74-79 | covered exactly when the rows hold enough; picks and shortfall add up to the quantity |
| FifoEngine.PicksDominate | src/modules/store/engines/fifo.engine.ts:39-72 | against any feasible allocation of the same quantity every prefix of the order gives at least as much under the picks |
| FifoEngine.PicksMaximiseAge | src/modules/store/engines/fifo.engine.ts:39-72 | for every weight that never rises along the order no allocation weighs more in total |
| FifoEngine.PicksTouchFewest | src/modules/store/engines/fifo.engine.ts:59-72 | no allocation from a shorter prefix of the order serves the quantity |
| FifoEngine.HeadIsOldest | src/modules/store/engines/fifo.engine.ts:30-72 | the first pick's batch holds selected stock than which none is strictly older; there is none exactly when nothing is on hand |
| FifoEngine.CompliantIsOldest | src/modules/store/engines/fifo.engine.ts:82-88 | a batch complies only when it is among the oldest or nothing is on hand, and does whenever it is older than every other |
| ReservationEngine.Create | src/modules/store/engines/reservation.engine.ts:21-124 | reserves on the source row and records an active reservation on its batch, or fails and leaves every table as it was |
| ReservationEngine.Release | src/modules/store/engines/reservation.engine.ts:126-186 | moves a whole active reservation of the company back to available and marks it released, or fails without change |
| ReservationEngine.ConsumeForIssue | src/modules/store/engines/reservation.engine.ts:192-274 | deducts from one reserved row and then drains the matching reservations in order, or fails without change |
| ReservationEngine.UseUp | src/modules/store/engines/reservation.engine.ts:255-271 | the loop with its running remainder computes the draining of the ranked reservations |
| ReservationEngine.RankedAreRows | src/modules/store/engines/reservation.engine.ts:242-253 | the ranked candidates are exactly the matching active rows, each once, in (priority, createdAt) order |
| ReservationEngine.DrainedInOrder | src/modules/store/engines/reservation.engine.ts:255-271 | closed form of the loop: the k-th is consumed, reduced or untouched by what is wanted ahead of it, so at most one is partly reduced, after all earlier ones are consumed, and active ones stay positive |
| ReservationEngine.DrainedElsewhere | src/modules/store/engines/reservation.engine.ts:255-271 | reservations that are not candidates stay as they were |
| ReservationEngine.DrainedLowersHeld | src/modules/store/engines/reservation.engine.ts:255-271 | the lot's active reservations fall by exactly min(issued quantity, matching total), no other lot's fall |
| ReservationEngine.WantedIsHeldFor | src/modules/store/engines/reservation.engine.ts:242-253 | the ranked candidates total what is actively reserved of the lot for the order, and without an order all that is |
| ReservationEngine.ConsumedExactlyWhen | src/modules/store/engines/reservation.engine.ts:208-240 | a consume succeeds exactly for a positive quantity that one reserved row of the lot, in the warehouse and at the location if named, holds |
| ReservationEngine.ConsumedByPriority | src/modules/store/engines/reservation.engine.ts:242-271 | of two active reservations an issue may use, that of smaller priority, or equal and made earlier, is consumed whole before the other is touched |
| ReservationEngine.ConsumedTouchesClaims | src/modules/store/engines/reservation.engine.ts:242-271 | a reservation of another lot, order or status stays as it was; the others are consumed, lowered to something positive, or left |
| ReservationEngine.CreatedSlack | src/modules/store/engines/reservation.engine.ts:76-109 | reserving raises reserved stock and active reservations of every lot alike |
| ReservationEngine.ReleasedSlack | src/modules/store/engines/reservation.engine.ts:147-174 | releasing lowers reserved stock and active reservations of every lot alike |
| ReservationEngine.ConsumedSlack | src/modules/store/engines/reservation.engine.ts:208-271 | a consume widens the gap between reservations and reserved stock by exactly what matching reservations fail to cover |
| ProductionLaws.WithoutBatchExactlyWhen | src/modules/store/engines/reservation.engine.ts:45-57 | without a batch, reserving succeeds exactly when the quantity is positive, the material known and the oldest row, the first suggested, alone holds it |
| ProductionLaws.NamedBatchExactlyWhen | src/modules/store/engines/reservation.engine.ts:58-75 | with a batch, reserving succeeds exactly for a positive quantity of a material of the company that one available row of the batch, in the warehouse if named, holds |
| ProductionLaws.CreatedRecords | src/modules/store/engines/reservation.engine.ts:76-109 | the quantity leaves one available row for reserved stock in the same place, no other place changes, and the reservation is recorded as asked, with priority five by default |
| ProductionLaws.ReleasedExactlyWhen | src/modules/store/engines/reservation.engine.ts:126-145 | a release succeeds exactly for an active reservation of the company, on a batch, whose quantity one reserved row of the lot holds |
| ProductionLaws.ReleasedRecords | src/modules/store/engines/reservation.engine.ts:147-174 | the whole quantity returns from a reserved row of the lot to available stock in the same place, and only the status of the reservation changes |
| Cases.TotalDoesNotSuffice | src/modules/store/engines/reservation.engine.ts:45-57 | two batches of six, finished one after the other, do not reserve ten although twelve are available |
| Grn.PutAwayLine | src/modules/store/grn.service.ts:636-699 | puts the good part into hold or available stock and the damaged part into damaged stock, each only if positive |
| Grn.PostPoLine | src/modules/store/grn.service.ts:312-420 | one order line: the checks in the code's order, a batch of its own, the item, putting away, and the order item's received quantity |
| Grn.PostAdHocLine | src/modules/store/grn.service.ts:525-618 | one line without an order: checks, batch, item, putting away |
| Grn.CreateAndPost | src/modules/store/grn.service.ts:119-204 | posts a receipt with all its lines, the order's status and its own, or throws and leaves every table as it was |
| Grn.ApplyQc | src/modules/store/grn.service.ts:701-926 | applies all inspection lines with counters read before them, then the receipt's status, or throws and leaves every table as it was |
| Receipts.PostedGrnExactlyWhen | src/modules/store/grn.service.ts:119-338 | a receipt is accepted exactly when its header is admissible and each line fits, the lines on one order item together within what is pending before the receipt; then each item has received what its lines add |
| Receipts.PostedGrnRecords | src/modules/store/grn.service.ts:347-420 | one item and one batch a line, field by field; and every place gains exactly the good parts, on hold or available, and damaged parts its items bring to it |
| Receipts.PostedGrnSettles | src/modules/store/grn.service.ts:437-460 | the new receipt is pending exactly when an item of it must be inspected, the order closed, partial or open by what all its items have received, and no other row changes |
| GrnLaws.PostedGrnKeeps | src/modules/store/grn.service.ts:260-634 | a receipt with any lines keeps ledger agreement, reconciliation, backing with equal slack, and hold balance |
| GrnLaws.PostedGrnReceives | src/modules/store/grn.service.ts:323-414 | without over-receipt items stay within ordered + 0.0001 however many lines name them; with short at most received nothing received falls |
| GrnLaws.PostedGrnCloses | src/modules/store/grn.service.ts:437-447 | every order is closed exactly when all its items are covered, before and after any receipt |
| GrnLaws.ClosedStaysClosed | src/modules/store/grn.service.ts:437-447 | an order closed by receipts stays closed under further receipts with short at most received |
| GrnLaws.PlacedKeeps | src/modules/purchase/purchase.service.ts:115-174 | a new order keeps all store invariants, the received bound and closed-exactly-when-covered |
| GrnLaws.QcLinesEffect | src/modules/store/grn.service.ts:742-837 | each line moves its stock out of hold, but an item's counters show only what its last line decides |
| Destinations.InspectedGoodsGo | src/modules/store/grn.service.ts:785-837 | for any lines, available stock of an item in its place rises by what all lines on it accept, rejected stock by what they reject, hold falls by both, and no other status changes |
| Receipts.QcAppliedExactlyWhen | src/modules/store/grn.service.ts:721-837 | an inspection is accepted exactly when its receipt is the company's and under inspection, its lines name items of it, and what they decide of each lies on hold where it was put away |
| Receipts.QcAppliedShows | src/modules/store/grn.service.ts:770-783 | accepted, rejected and status of an item each show what the last line on it says, on top of what they showed before; an item no line names stays as it was |
| Receipts.QcAppliedSettles | src/modules/store/grn.service.ts:881-911 | the receipt's status follows from the counters of its items, and no other row changes |
| GrnLaws.QcAppliedKeeps | src/modules/store/grn.service.ts:701-926 | any inspection keeps ledger agreement, reconciliation and backing with equal slack |
| GrnLaws.QcBalancesExactlyWhen | src/modules/store/grn.service.ts:742-775 | after an inspection of non-negative amounts hold stock is balanced for every line exactly when no line that another on the same item follows decides anything |
| GrnLaws.QcLeavesPendingExactlyWhen | src/modules/store/grn.service.ts:881-899 | a receipt leaves pending inspection exactly when each of its pending items is mentioned, whatever is decided |
| GrnLaws.QcClearsHoldExactlyWhen | src/modules/store/grn.service.ts:742-837 | the receipt's hold stock is gone exactly when the lines decide all that was undecided of each item |
| GrnLaws.HoldVerdictCompletes | src/modules/store/grn.service.ts:884-897 | one undecided hold verdict on the only item completes a receipt with its stock untouched |
| Cases.HoldVerdictStrandsStock | src/modules/store/grn.service.ts:884-897 | a receipt of ten units posted and completed by one verdict, all ten still in quality hold |
| Cases.TwiceInOneInspection | src/modules/store/grn.service.ts:747-774 | three and four units accepted on two lines of one inspection leave three on hold and four accepted |
| Invariants.DecidedWithinHold | src/modules/store/grn.service.ts:764-775 | with balanced hold stock, accepted plus rejected never exceed what was put on hold |
| Invariants.ReceivedReconciles | src/modules/store/grn.service.ts:652-698 | under the invariants, a GRN line's lot holds received + finished + returned - issued - shipped exactly when its damage lies between nothing and all received |
| Runs.ReachableReceipts | src/modules/store/grn.service.ts:348-412 | the same for every GRN line of every reachable state |
| Cases.DamageBeyondReceived | src/modules/store/grn.service.ts:652-698 | ten units received with fifteen damaged put fifteen into stock |
| Issue.CreateIssue | src/modules/store/issue.service.ts:49-384 | posts all lines, request progress and status, and reports whether reserved stock was used, or throws and leaves every table as it was |
| IssueLaws.RoutedExactlyWhen | src/modules/store/issue.service.ts:122-223 | a line finds a route exactly when reserved stock goes first and one reserved row holds its quantity, or one available row does and its batch is the one suggested or a permitted override; the route leads to such a row and says whether it is an override |
| IssueLaws.LineIssuedExactlyWhen | src/modules/store/issue.service.ts:122-243 | a line is issued exactly when its quantity is positive and it finds a route: once found, a route always serves |
| IssueLaws.IssuePostedExactlyWhen | src/modules/store/issue.service.ts:71-243 | an issue is posted exactly when its warehouse, request and order are admissible and each line, on the stock the earlier ones left, finds a route |
| Issue.IssueOneLine | src/modules/store/issue.service.ts:122-351 | serves a line by its route, appends one issue item and credits the request's first line for the material |
| Issue.CreateReturn | src/modules/store/issue.service.ts:410-506 | adds every line under the status of its condition, or throws and leaves every table as it was |
| Issue.CreateTransfer | src/modules/store/issue.service.ts:508-609 | moves every line between the warehouses in its status, or throws and leaves every table as it was |
| IssueLaws.IssueIsExact | src/modules/store/issue.service.ts:122-252 | available plus reserved stock of every lot falls in the issue's warehouse by exactly the sum of the issue's lines for it, and nowhere else |
| IssueLaws.IssueFollowsFifo | src/modules/store/issue.service.ts:163-205 | every line is served from reserved stock, or recorded as an override asked for and permitted, or takes a batch than which, by dates and numbers, none on offer in the warehouse before the issue was older, or found none there |
| IssueLaws.IssuePostedKeeps | src/modules/store/issue.service.ts:99-370 | an issue keeps ledger agreement, reconciliation, backing and hold balance, and lets slack only grow |
| IssueLaws.IssueTightExactlyWhen | src/modules/store/issue.service.ts:134-162 | reservations still equal reserved stock after an issue exactly when each line served from reserved stock was covered by matching reservations |
| IssueLaws.CoveredExactlyWhen | src/modules/store/issue.service.ts:134-149 | a line is covered exactly when it asks no more than is reserved for the order it is issued for, and without an order always |
| IssueLaws.WithoutOrderCovered | src/modules/store/issue.service.ts:74-149 | an issue that names no production order and inherits none is covered |
| Cases.ForeignStockIssued | src/modules/store/issue.service.ts:134-149 | six reserved for one order, two for another, five issued for the second: six reserved on paper, three in stock |
| IssueLaws.IssuePostedProgresses | src/modules/store/issue.service.ts:336-351 | a request's lines carry exactly what issues against it took of each requested material |
| IssueLaws.IssueSetsStatus | src/modules/store/issue.service.ts:344-356 | the request an issue names is fulfilled when all its lines have what they asked for, else partial when some have something, else pending; no other request changes |
| IssueLaws.LinesReturnedKeep | src/modules/store/issue.service.ts:441-477 | returns keep every invariant |
| Destinations.ReturnArrives | src/modules/store/issue.service.ts:441-477 | every place of the warehouse gains exactly what lines bring to it, good stock as available, damaged as damaged, rejected as rejected, and no other place changes |
| Destinations.ReturnPostedExactlyWhen | src/modules/store/issue.service.ts:426-477 | a return is accepted exactly for a warehouse of the company and positive quantities of known batches |
| IssueLaws.LinesTransferredKeep | src/modules/store/issue.service.ts:542-583 | transfers in any status, held and reserved stock included, keep every invariant |
| Destinations.TransferArrives | src/modules/store/issue.service.ts:542-583 | for every lot, status and place, stock falls by what the lines take from that place in the one warehouse and rises by what they bring to it in the other |
| Destinations.TransferPostedExactlyWhen | src/modules/store/issue.service.ts:525-583 | a transfer is posted exactly between warehouses of the company when each line, on the stock the earlier ones left, finds its positive quantity in the place it names |
| Production.CreateRequest | src/modules/production/production.service.ts:143-228 | refuses without change, or opens the request and reserves pick by pick; a failing pick leaves the earlier ones in place |
| Production.Explode | src/modules/production/bom.service.ts:181-257 | refuses without change, or requests the exploded quantities and reserves pick by pick |
| Production.ReceiveFg | src/modules/production/production.service.ts:234-310 | creates a batch and adds the quantity to available stock under it, or throws and leaves every table as it was |
| ProductionLaws.CreatedKeeps | src/modules/store/engines/reservation.engine.ts:59-109 | reserving keeps every invariant |
| ProductionLaws.ReleasedKeeps | src/modules/store/engines/reservation.engine.ts:126-174 | releasing keeps every invariant |
| ProductionLaws.WantsReservedKeep | src/modules/production/production.service.ts:205-225 | automatic reservation keeps every invariant, also when it fails half-way, in whatever order the database answers |
| ProductionLaws.FgReceivedKeeps | src/modules/production/production.service.ts:260-292 | receiving finished goods keeps every invariant |
| Requests.FgReceivedExactlyWhen | src/modules/production/production.service.ts:246-310 | finished goods are received exactly in a positive quantity of a material and for an order of the company: into a new batch, available in the place named, and no other place changes |
| Requests.RequestRecords | src/modules/production/production.service.ts:143-228 | a refused request writes nothing; any other is recorded line by line as asked, and every reservation made for it is active and bears its company, order and the order's priority |
| Requests.ExplosionRecords | src/modules/production/bom.service.ts:181-257 | a refused explosion writes nothing; any other requests each component in the quantity scaled, raised by a positive scrap factor and rounded to the nearest 0.0001, and reserves it for the order |
| ProductionLaws.RoundedToNearest | src/modules/production/bom.service.ts:218-226 | an exploded quantity is a multiple of 0.0001, the nearest to the scaled one, halves up, and rounding again changes nothing |
| AutoReserve.WantMoves | src/modules/production/production.service.ts:205-225 | a line that does not fail reserves its quantity when that much is available, else nothing; so much the new reservations total, and so much goes from available to reserved |
| AutoReserve.CoveredIsOnHand | src/modules/store/engines/fifo.engine.ts:30-79 | a suggestion covers exactly the quantities that are on hand, in any order of rows |
| AutoReserve.PicksReserveEach | src/modules/production/production.service.ts:212-224 | where no pick fails there is one new reservation a pick, on its batch, for its quantity, in order |
| AutoReserve.ShelfReserves | src/modules/production/bom.service.ts:235-255 | a covered suggestion reserves completely when rows of one lot and warehouse are suggested in the order in which they are then looked up |
| AutoReserve.WantsReserveInOrder | src/modules/production/bom.service.ts:235-255 | no line of known materials fails if rows keep their order from each line's suggestion to its last pick |
| AnyOrder.WantReservesExactlyWhen | src/modules/store/engines/reservation.engine.ts:59-74 | a line reserves without failing for every quantity and every order of answers exactly when available rows of one batch in one warehouse all hold the same |
| AnyOrder.PickDraws | src/modules/store/engines/reservation.engine.ts:59-109 | a pick is reserved exactly when some row of its batch and warehouse holds it, and drawn from the first such row |
| Cases.OtherOrderFails | src/modules/production/production.service.ts:205-225 | rows of five and three, suggested one way round and looked up the other: a request for eight fails with one of its two reservations made |
| AutoReserve.SuggestionIsShelf | src/modules/store/engines/fifo.engine.ts:30-49 | a suggestion is computed from distinct available positive rows of the material, ties left in the order the table has at that query |
| AnyOrder.EvenNeverFails | src/modules/production/production.service.ts:205-225 | a line never fails, in any order of answers, where available rows of one batch in one warehouse all hold the same |
| AnyRequest.WantsReserveFully | src/modules/production/bom.service.ts:235-255 | no line fails, in any order of answers, where each batch of the materials wanted has at most one available row a warehouse |
| AnyRequest.RequestsFailOnlyRefusedExactlyWhen | src/modules/production/production.service.ts:143-228 | material requests fail only when refused before anything is written, for all lines and all orders of answers, exactly when each batch has at most one available row a warehouse |
| AnyRequest.ExplosionFailsOnlyRefused | src/modules/production/bom.service.ts:181-257 | under that condition an explosion into materials of the company fails only when refused before anything is written |
| Dispatching.Ship | src/modules/dispatch/dispatch.service.ts:127-259 | deducts every line and marks the order shipped, or throws and leaves every table as it was |
| Dispatching.LinesShippedTake | src/modules/dispatch/dispatch.service.ts:143-183 | shipping takes from every lot exactly what the lines say, none of it reserved or held |
| Destinations.ShipmentLeaves | src/modules/dispatch/dispatch.service.ts:127-259 | of every lot, warehouse and status exactly what the lines say leaves available stock of the order's warehouse, nothing leaves anywhere else, and the order, a draft before, is shipped |
| Destinations.ShippedOutExactlyWhen | src/modules/dispatch/dispatch.service.ts:127-183 | an order ships exactly when it is a draft of the company with lines, and each of them, on the stock the earlier ones left, names a batch and finds its quantity in one available row of the warehouse |
| Dispatching.ShippedOutKeeps | src/modules/dispatch/dispatch.service.ts:127-259 | shipping keeps every invariant, so an order's lines count once, from shipping on |
| Dispatching.DraftedKeeps | src/modules/dispatch/dispatch.service.ts:62-125 | drafting a dispatch keeps every invariant |
| Runs.StepKeepsCore | src/modules/store/engines/stock.engine.ts:39-223 | every step on every input keeps ledger agreement, backing, reconciliation and own batches, and slack never shrinks |
| Runs.RunKeepsCore | src/modules/store/engines/stock.engine.ts:39-223 | every run of any operations keeps them |
| Runs.ReachableStock | src/modules/store/engines/stock.engine.ts:39-223 | in every reachable state: rows and ledger agree on every query, keys are distinct and non-negative, balances run, reserved stock is within active reservations, and each lot's stock is booked + finished + returned - issued - shipped, booked being what receipts put away |
| Runs.RunKeepsHold | src/modules/store/grn.service.ts:742-837 | every run whose inspections are non-negative and decide each item in its last line keeps each GRN line's hold stock equal to put on hold - accepted - rejected, wherever it was moved |
| Runs.RunTightExactlyWhen | src/modules/store/issue.service.ts:134-149 | active reservations equal reserved stock after a run exactly when every issue line served from reserved stock along it was covered |
| Runs.RunWithoutOrdersTight | src/modules/store/issue.service.ts:134-149 | a run whose issues are for no order keeps active reservations equal to reserved stock |
| Runs.RunKeepsClosed | src/modules/store/grn.service.ts:437-447 | after every run an order is closed exactly when all its items are covered |
| Runs.RunReceives | src/modules/store/grn.service.ts:323-414 | along every run without over-receipt and excess short, no item passes ordered + 0.0001 and nothing received falls |
| Runs.RunProgresses | src/modules/store/issue.service.ts:336-370 | after every run a request's lines carry exactly what was issued against it of each requested material |
| Auth.AuthService.Login | src/modules/auth/auth.service.ts:76-181 | prunes the user's tokens and opens a family with one new token, or throws and changes nothing |
| Auth.AuthService.PruneTokens | src/modules/auth/auth.service.ts:354-383 | deletes the user's expired and long revoked tokens and revokes the oldest live ones beyond nineteen |
| Auth.AuthService.Refresh | src/modules/auth/auth.service.ts:183-222 | rotates the presented live token, or within the grace period the family's newest live one, else throws and changes nothing |
| Auth.AuthService.RotateFromStored | src/modules/auth/auth.service.ts:224-252 | issues a successor in the family and retires the rotated token with a link to it |
| Auth.AuthService.LogoutAll | src/modules/auth/auth.service.ts:261-272 | revokes exactly the user's unrevoked tokens |
| Auth.AuthService.LogoutByRefreshToken | src/modules/auth/auth.service.ts:275-292 | revokes exactly the presented token if it is unrevoked |
| Auth.AuthService.RevokeSession | src/modules/auth/auth.service.ts:318-328 | revokes exactly the user's named unrevoked token, else throws and changes nothing |
| AuthLaws.RunKeeps | src/modules/auth/auth.service.ts:183-251 | in every reachable state a family belongs to one user and has at most one unrevoked token |
| AuthLaws.EndedIsFinal | src/modules/auth/auth.service.ts:202-219 | once a family has no unrevoked token, it has none after any run and none of its tokens ever refreshes, grace period or not |
| AuthLaws.LogoutEnds | src/modules/auth/auth.service.ts:261-292 | logout, session revocation and logout-all end the family |
| AuthLaws.OnlyLoginOpens | src/modules/auth/auth.service.ts:149-152 | no operation but login brings a family into being |
| AuthLaws.LogoutAllRevokesOwn | src/modules/auth/auth.service.ts:261-272 | each unrevoked token of the user is revoked now and otherwise as it was; every other token is as it was |
| AuthLaws.LogoutRevokesOne | src/modules/auth/auth.service.ts:275-292 | the presented token is revoked now if it is unrevoked; every other token is as it was |
| AuthLaws.SessionRevokedExactlyWhen | src/modules/auth/auth.service.ts:318-328 | revoking a session succeeds exactly when an unrevoked token of the user has that id, and revokes it and no other |
| AuthLaws.RefreshesExactlyWhen | src/modules/auth/auth.service.ts:183-222 | a refresh succeeds exactly when an active user presents a stored token that is usable, or was revoked at most thirty seconds ago while its family has a usable one |
| AuthLaws.RefreshReplaces | src/modules/auth/auth.service.ts:224-252 | a refresh revokes a usable token of the presented one's family, names its successor on it, and adds that successor for the same user and family; every other token is as it was |
| AuthLaws.PruningDeletesExactly | src/modules/auth/auth.service.ts:354-383 | pruning leaves other users' tokens alone and deletes exactly the user's expired ones and those revoked more than thirty days ago; the rest stay or are revoked now |
| AuthLaws.RunCaps | src/modules/auth/auth.service.ts:366-382 | no user ever has more than twenty live tokens, at any time in any run |
| AuthLaws.PrunedMakesRoom | src/modules/auth/auth.service.ts:354-383 | pruning leaves the user all live tokens up to nineteen of them, and everybody else as many as before |
| AuthLaws.OldestGoFirst | src/modules/auth/auth.service.ts:366-382 | where pruning revokes a token, every older live one of the user goes too |
| AuthLaws.RunHoldsExactlyWhen | src/modules/auth/auth.service.ts:233-244 | chains hold at every point of a run exactly when every refresh on it issues a token that lives long enough |
| AuthLaws.StepHoldsExactlyWhen | src/modules/auth/auth.service.ts:224-252 | a refresh leaves chains that hold exactly when the new token expires no sooner than the spent one, or lives as long as revoked tokens are kept |
| AuthLaws.HoldsExactlyWhen | src/modules/auth/auth.service.ts:354-418 | linked chains hold under all further guarded runs exactly when each stored link lasts |
| AuthLaws.BreakingRun | src/modules/auth/auth.service.ts:354-364 | the run that breaks a link that does not last: the user logs in once the replacement has expired |
| AuthLaws.RunLinked | src/modules/auth/auth.service.ts:233-244 | with one lifetime throughout, every replacement a stored token names is stored after every run, pruning included |
| AuthLaws.ChainEnd | src/modules/auth/auth.service.ts:233-244 | following replacements from any stored token terminates in its own family at a stored token nothing replaced |
| AuthLaws.ShorterLifetimeBreaksChains | src/modules/auth/auth.service.ts:354-364 | a concrete run with a shortened lifetime where pruning deletes a replacement whose predecessor stays |
| DocumentSeries.MaxSeq | src/modules/company-settings/document-series.service.ts:134-140 | the loop finds the highest sequence parsed back from the scanned rows |
| DocumentSeries.ParsesBack | src/modules/company-settings/document-series.service.ts:110-138 | parsing back any sequence padded to any width returns it |
| DocumentSeries.ParsesNumber | src/modules/company-settings/document-series.service.ts:135-138 | whatever blanks and sign stand before digits and whatever text after them, parsing gives the signed number |
| DocumentSeries.NextReads | src/modules/company-settings/document-series.service.ts:48-58 | the next number is the cleaned prefix, DOC by default, the year where it is included or restarts the series, zeros as far as the padding asks, and the next sequence |
| DocumentSeries.NextSequenceIsLeast | src/modules/company-settings/document-series.service.ts:125-140 | the next sequence exceeds all that up to 5000 rows on the prefix show, and is one or one more than some row shows |
| DocumentSeries.NextIsFresh | src/modules/company-settings/document-series.service.ts:98-141 | the next number is no existing one, whatever was entered by hand and however the series was configured, up to 5000 rows on the prefix |
| DocumentSeries.SequencesRise | src/modules/company-settings/document-series.service.ts:98-141 | storing the number just made raises the next sequence of its prefix by exactly one |
| DocumentSeries.SequencesNeverFall | src/modules/company-settings/document-series.service.ts:125-140 | however a table grows, the next sequence of a prefix never falls and exceeds that of every number handed out on it before |
| DocumentSeries.FreshExactlyWithinLimit | src/modules/company-settings/document-series.service.ts:125-132 | freshness over all tables with m rows on the prefix holds exactly for m up to the scan's limit |
| Csv.RoundTripExactlyWhen | src/modules/store/store-query.service.ts:631-647 | the reader of RFC 4180 recovers header and every cell exactly when there are keys and each is plain text |
| Csv.LinesReadBack | src/modules/store/store-query.service.ts:643-646 | the lines of any records read back as all their cells, whatever commas, quotes and line breaks they hold |
| Csv.ValueReadsBack | src/modules/store/store-query.service.ts:631-647 | under plain keys every value is read back in its record and column, absent and null ones as the empty text |
| PdfText.EscapesOnce | src/common/utils/simple-pdf.ts:53-55 | the three replacements in turn put one backslash before each special unit |
| PdfText.EncodeEscaped | src/common/utils/simple-pdf.ts:53-55 | escaping a text and encoding it is escaping its bytes, surrogates included |
| PdfText.LiteralReadsBack | src/common/utils/simple-pdf.ts:53-55 | a literal-string reader returns an escaped text up to ends of line |
| PdfLaws.TextComesBackExactlyWhen | src/common/utils/simple-pdf.ts:53-55 | an escaped, encoded text reads back byte for byte exactly when it holds no carriage return |
| PdfFile.BuildSimplePdf | src/common/utils/simple-pdf.ts:5-51 | the loops over lines, objects and offsets build the specified document, encoded |
| PdfFile.WriteTextOps | src/common/utils/simple-pdf.ts:14-21 | one operation a line, downwards in steps of 14, until below 50 |
| PdfLaws.FileSize | src/common/utils/simple-pdf.ts:16-21 | for any title and lines the table starts within ten digits |
| PdfLaws.OffsetsAreRight | src/common/utils/simple-pdf.ts:36-49 | the number at the end is where the table stands, and the twenty bytes of each entry in it are those of an object in use at the byte position where the object is |
| PdfLaws.StreamFound | src/common/utils/simple-pdf.ts:29-31 | the length written is the stream's size in bytes: taking that many finds exactly the encoded stream |
| PdfLaws.PageReadsBack | src/common/utils/simple-pdf.ts:9-50 | a reader following the table to the stream and reading its literals gets exactly the first 54 lines, cut to 110 units, with line ends as line feeds |
| PdfLaws.PageShows | src/common/utils/simple-pdf.ts:9-22 | the first line read is the title, the second empty, and each further one a line of the report with parentheses and backslashes as spaces, all cut to 110 units |
| Utf8.EncodedReadsBack | src/common/utils/simple-pdf.ts:50 | decoding the bytes by RFC 3629 gives back every text but for surrogates without a partner, which become replacement characters |
| StorePolicy.ResolvedIsSensible | src/common/workflow/company-workflow.ts:50-81 | any settings resolve to one to eight positive, strictly rising bands and a slow threshold within the dead one |
| StorePolicy.BandsAreSmallest | src/common/workflow/company-workflow.ts:52-56 | the bands are the eight smallest distinct positive integers of the list |
| StorePolicy.ResolvedThresholds | src/common/workflow/company-workflow.ts:42-81 | each threshold is the whole part of a non-negative number given and else its default; slow stock defaults to half of dead, between 1 and 90 days, and never exceeds it |
| StorePolicy.ResolvesToItselfExactlyWhen | src/common/workflow/company-workflow.ts:50-81 | resolving leaves exactly the sensible policies unchanged, so resolving twice is resolving once |
| Aging.Analyze | src/modules/store/engines/aging.engine.ts:25-95 | the buckets carry exactly the policy's labels and each the sum of its lines; the four lists are the first fifty lines of their groups |
| Aging.LabelsDiffer | src/modules/store/engines/aging.engine.ts:49-53 | no two buckets of a policy share a label, nor do their labels read the same |
| Aging.BucketIsInterval | src/modules/store/engines/aging.engine.ts:64-70 | an age falls in a bucket exactly when it lies from the bucket's first day to its band, the first and last being open |
| Aging.BucketsAddUp | src/modules/store/engines/aging.engine.ts:60-70 | the buckets total the analysed quantity |
| Aging.SlowAndDeadSplit | src/modules/store/engines/aging.engine.ts:72-76 | under any settings slow and dead stock together are exactly the stock at least as old as the slow threshold, no line in both |
| Aging.ExpirySplit | src/modules/store/engines/aging.engine.ts:78-84 | expired and soon expiring stock together are exactly the dated stock within the warning days, no line in both |
| Aging.AnalysedHolds | src/modules/store/engines/aging.engine.ts:31-41 | the analysed lines are those of the company with a quantity, available, on hold or reserved, each as often as read |
| Aging.GroupHolds | src/modules/store/engines/aging.engine.ts:60-84 | each list's group holds exactly the lines due for it by their dates in milliseconds, each as often as analysed |

## Left out

- Interleaved requests: operations read and then write absolute values, so nothing is claimed when two of them overlap.
- IEEE doubles: quantities are reals, rounding only where the code rounds; sequences are unbounded, not limited to 2^53.
- Serial numbers on issue and dispatch lines, and the errors they can raise.
- Issue.CreateIssue: does not model serial numbers.
- Issue.IssueOneLine: does not model serial numbers.
- Dispatching.Ship: does not model serial numbers.
- Grn.CreateAndPost: does not model posting from a stored draft.
- Grn.ApplyQc: does not model rework and deviation amounts, nor the supplier's quality metric.
- Traceability links, override logs, activity and audit records, notes and other descriptive columns.
- Document numbers inside postings: the series is modelled on its own, not as part of each transaction.
- Creating and upserting series from their catalogue; capitals of letters beyond ASCII in prefixes.
- Runs.RunKeepsClosed: orders edited or cancelled by hand are not among the operations; nor are requests cancelled by hand.
- The optional company, material and batch of a move's target: no caller passes them.
- Lockout, password hashing, signing, token hashing, labels and audit of logins; a token's id stands for its secret and hash, and a refresh lifetime is an input.
- Auth.AuthService.Login: lockout and a suspended company are not told apart from other refusals; pruning and issuing are one step, as is every other session request, although the code makes them separate queries.
- Csv.RoundTripExactlyWhen: cells are taken in their string form, so how dates and nested values become strings is not modelled; plain text here is anything without comma, quote, carriage return and line feed, and the reader ends lines at line feeds.
- Aging.Analyze: the policy is not returned, and the report's lines carry the stock row and its batch, not the material's name and code.
- PdfFile.BuildSimplePdf: the page tree and font objects are located, not interpreted.
- Bookings and invoices, templates, settings merging, users and roles, dashboards and list queries.
