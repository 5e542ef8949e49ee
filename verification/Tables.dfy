/** The tables the store works on, as one value, and the object whose fields
    hold them. A row's id in a table is its position there. */
module Tables {
  import opened Base

  // ----- stock -----

  datatype Status = Available | QualityHold | Reserved | Damaged | Rejected | Custom(name: nat)

  /** A batch of one material as one company books it. */
  datatype Lot = Lot(company: Id, material: Id, batch: nat)

  datatype Key = Key(lot: Lot, warehouse: Id, location: Option<Id>, status: Status)

  datatype Row = Row(key: Key, quantity: real)

  datatype Kind =
    | GrnQcHold | GrnIn | GrnDamage
    | ReserveOut | ReserveIn | UnreserveOut | UnreserveIn
    | QcRelease | QcAccept | QcReject
    | Issued | Returned | TransferOut | TransferIn | Dispatched | FgReceipt

  datatype Entry = Entry(key: Key, kind: Kind, quantity: real, balanceAfter: real)

  /** `number` is the batch number's place in the database's text order. */
  datatype Batch = Batch(company: Id, material: Id, number: int, receivedAt: int, expiryDate: Option<int>)

  datatype Stock = Stock(batches: seq<Batch>, rows: seq<Row>, ledger: seq<Entry>)

  /** A query's `where` clause on stock: an absent field restricts nothing. */
  datatype Where = Where(
    company: Option<Id>,
    material: Option<Id>,
    batch: Option<nat>,
    warehouse: Option<Id>,
    location: Option<Option<Id>>,
    status: Option<Status>)
  {
    predicate Hits(k: Key) {
      && (company.None? || company.value == k.lot.company)
      && (material.None? || material.value == k.lot.material)
      && (batch.None? || batch.value == k.lot.batch)
      && (warehouse.None? || warehouse.value == k.warehouse)
      && (location.None? || location.value == k.location)
      && (status.None? || status.value == k.status)
    }
  }

  function Exactly(k: Key): Where {
    Where(Some(k.lot.company), Some(k.lot.material), Some(k.lot.batch), Some(k.warehouse), Some(k.location),
        Some(k.status))
  }

  /** All stock of a lot, wherever it lies and whatever its status. */
  function OfLot(lot: Lot): Where {
    Where(Some(lot.company), Some(lot.material), Some(lot.batch), None, None, None)
  }

  function OfLotIn(lot: Lot, status: Status): Where {
    OfLot(lot).(status := Some(status))
  }

  /** Stock of a batch in quality hold, over all locations and companies. */
  function HoldOf(batch: nat): Where {
    Where(None, None, Some(batch), None, None, Some(QualityHold))
  }

  // ----- reservations -----

  datatype ReservationStatus = Active | Released | Consumed

  datatype Reservation = Reservation(
    company: Id,
    material: Id,
    batch: Option<nat>,
    productionOrder: Option<Id>,
    quantity: real,
    priority: int,
    createdAt: int,
    status: ReservationStatus)

  // ----- purchase orders and receipts -----

  datatype PoStatus = PoDraft | PoOpen | PoPartial | PoClosed

  datatype PurchaseOrder = PurchaseOrder(company: Id, supplier: Id, status: PoStatus)

  datatype PoItem = PoItem(order: nat, material: Id, ordered: real, received: real)

  datatype ReceiptStatus = DraftGrn | PendingQc | Approved | RejectedGrn | PartialGrn | Completed

  datatype Receipt = Receipt(company: Id, supplier: Id, order: Option<nat>, status: ReceiptStatus,
      readyForAccounts: bool)

  datatype QcStatus = QcPending | QcWaived | QcAccepted | QcRejected | QcHeld

  datatype GrnItem = GrnItem(
    receipt: nat,
    poItem: Option<nat>,
    lot: Lot,
    warehouse: Id,
    location: Option<Id>,
    received: real,
    damage: real,
    short: real,
    qcRequired: bool,
    qcStatus: QcStatus,
    accepted: real,
    rejected: real)

  // ----- issues, returns, production, dispatch -----

  datatype IssueItem = IssueItem(lot: Lot, quantity: real, fifoOverride: bool, request: Option<nat>)

  datatype DocItem = DocItem(lot: Lot, quantity: real)

  datatype RequestStatus = Pending | Partial | Fulfilled | Cancelled

  datatype Request = Request(company: Id, productionOrder: Option<Id>, status: RequestStatus)

  datatype RequestLine = RequestLine(request: nat, material: Id, requested: real, issued: real)

  datatype DispatchStatus = Draft | Shipped | DispatchCancelled

  datatype DispatchLine = DispatchLine(material: Id, batch: Option<nat>, quantity: real)

  datatype Dispatch = Dispatch(company: Id, warehouse: Id, status: DispatchStatus, lines: seq<DispatchLine>)

  // ----- master data, edited elsewhere -----

  datatype Material = Material(company: Id, qcRequired: bool, shelfLifeDays: Option<int>)

  datatype ProductionOrder = ProductionOrder(company: Id, priority: int)

  datatype BomLine = BomLine(component: Id, quantity: real, scrapFactor: Option<real>)

  datatype Bom = Bom(company: Id, active: bool, lines: seq<BomLine>)

  /** `warehouses` and `locations` list the active ones; a location is
      (company, warehouse, location). */
  datatype Masters = Masters(
    materials: map<Id, Material>,
    suppliers: map<Id, Id>,
    warehouses: set<(Id, Id)>,
    locations: set<(Id, Id, Id)>,
    productionOrders: map<Id, ProductionOrder>,
    boms: map<Id, Bom>)

  // ----- the whole database -----

  datatype Db = Db(
    masters: Masters,
    stock: Stock,
    reservations: seq<Reservation>,
    orders: seq<PurchaseOrder>,
    poItems: seq<PoItem>,
    receipts: seq<Receipt>,
    grnItems: seq<GrnItem>,
    requests: seq<Request>,
    requestLines: seq<RequestLine>,
    issueItems: seq<IssueItem>,
    returnItems: seq<DocItem>,
    fgItems: seq<DocItem>,
    dispatches: seq<Dispatch>)

  /** A database before anything was posted. */
  function Empty(masters: Masters): Db {
    Db(masters, Stock([], [], []), [], [], [], [], [], [], [], [], [], [], [])
  }

  class Database {
    var masters: Masters
    var batches: seq<Batch>
    var rows: seq<Row>
    var ledger: seq<Entry>
    var reservations: seq<Reservation>
    var orders: seq<PurchaseOrder>
    var poItems: seq<PoItem>
    var receipts: seq<Receipt>
    var grnItems: seq<GrnItem>
    var requests: seq<Request>
    var requestLines: seq<RequestLine>
    var issueItems: seq<IssueItem>
    var returnItems: seq<DocItem>
    var fgItems: seq<DocItem>
    var dispatches: seq<Dispatch>

    constructor (masters: Masters)
      ensures State() == Empty(masters)
    {
      this.masters := masters;
      batches, rows, ledger := [], [], [];
      reservations, orders, poItems, receipts, grnItems := [], [], [], [], [];
      requests, requestLines, issueItems, returnItems, fgItems, dispatches := [], [], [], [], [], [];
    }

    /** The contents of all tables. */
    function State(): Db
      reads this
    {
      Db(masters, Stock(batches, rows, ledger), reservations, orders, poItems, receipts, grnItems,
         requests, requestLines, issueItems, returnItems, fgItems, dispatches)
    }

    /** Ends a failed transaction: every table is as it was when it began. */
    method Rollback(before: Db)
      modifies this
      ensures State() == before
    {
      RestoreStore(before);
      RestorePurchasing(before);
      RestoreDocuments(before);
    }

    method RestoreStore(before: Db)
      modifies this`masters, this`batches, this`rows, this`ledger, this`reservations
      ensures masters == before.masters && Stock(batches, rows, ledger) == before.stock
                && reservations == before.reservations
    {
      masters, batches, rows, ledger := before.masters, before.stock.batches, before.stock.rows, before.stock.ledger;
      reservations := before.reservations;
    }

    method RestorePurchasing(before: Db)
      modifies this`orders, this`poItems, this`receipts, this`grnItems
      ensures orders == before.orders && poItems == before.poItems
      ensures receipts == before.receipts && grnItems == before.grnItems
    {
      orders, poItems, receipts, grnItems := before.orders, before.poItems, before.receipts, before.grnItems;
    }

    method RestoreDocuments(before: Db)
      modifies this`requests, this`requestLines, this`issueItems, this`returnItems, this`fgItems, this`dispatches
      ensures requests == before.requests && requestLines == before.requestLines && issueItems == before.issueItems
      ensures returnItems == before.returnItems && fgItems == before.fgItems && dispatches == before.dispatches
    {
      requests, requestLines, issueItems := before.requests, before.requestLines, before.issueItems;
      returnItems, fgItems, dispatches := before.returnItems, before.fgItems, before.dispatches;
    }
  }
}
