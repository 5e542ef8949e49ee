/** Goods receipts against purchase orders or ad hoc, and their inspection. */
module Grn {
  import opened Base
  import opened Tables
  import opened StockEngine
  import opened ReservationEngine
  import opened Workflow

  /** `batchNumber` is the place of the number the series assigns in the database's
      text order. An absent quantity is 0. */
  datatype GrnLine = GrnLine(
    poItem: Option<nat>,
    material: Option<Id>,
    received: real,
    damage: real,
    short: real,
    expiryDate: Option<int>,
    batchNumber: int)

  datatype GrnInput = GrnInput(
    order: Option<nat>,
    supplier: Option<Id>,
    warehouse: Id,
    location: Option<Id>,
    allowOverReceive: bool,
    lines: seq<GrnLine>)

  /** The state inside a posting, with its flag for lines that need inspection. */
  datatype Posting = Posting(db: Db, anyQc: bool)

  // ----- placing a purchase order -----

  datatype PoLine = PoLine(material: Id, ordered: real)

  predicate KnownSupplier(masters: Masters, company: Id, supplier: Id) {
    supplier in masters.suppliers && masters.suppliers[supplier] == company
  }

  function NewPoItems(order: nat, lines: seq<PoLine>): (items: seq<PoItem>)
    ensures |items| == |lines|
    ensures forall i | 0 <= i < |items| :: items[i].order == order && items[i].received == 0.0
              && items[i].ordered == lines[i].ordered
  {
    seq(|lines|, i requires 0 <= i < |lines| => PoItem(order, lines[i].material, lines[i].ordered, 0.0))
  }

  function Placed(db: Db, company: Id, supplier: Id, open: bool, lines: seq<PoLine>): Result<Db> {
    if lines == [] then Err(BadRequest)
    else if !KnownSupplier(db.masters, company, supplier) then Err(NotFound)
    else if exists i | 0 <= i < |lines| ::
              !(lines[i].ordered > 0.0) || !KnownMaterial(db.masters, company, lines[i].material) then Err(BadRequest)
    else
      Ok(db.(orders := db.orders + [PurchaseOrder(company, supplier, if open then PoOpen else PoDraft)],
             poItems := db.poItems + NewPoItems(|db.orders|, lines)))
  }

  // ----- putting a line away -----

  /** The good part of a line goes on hold when it must be inspected. */
  function GoodKey(lot: Lot, warehouse: Id, location: Option<Id>, qcRequired: bool): Key {
    Key(lot, warehouse, location, if qcRequired then QualityHold else Available)
  }

  function PutAway(
      s: Stock, lot: Lot, warehouse: Id, location: Option<Id>, received: real, damage: real,
      qcRequired: bool): Result<Stock>
  {
    var kind := if qcRequired then GrnQcHold else GrnIn;
    var s1 :- AddedIfPositive(s, GoodKey(lot, warehouse, location, qcRequired), received - damage, kind);
    AddedIfPositive(s1, Key(lot, warehouse, location, Damaged), damage, GrnDamage)
  }

  method PutAwayLine(
      db: Database, lot: Lot, warehouse: Id, location: Option<Id>, received: real, damage: real, qcRequired: bool)
    returns (r: Result<()>)
    modifies db
    ensures match PutAway(old(db.State()).stock, lot, warehouse, location, received, damage, qcRequired)
            case Ok(s) => r.Ok? && db.State() == old(db.State()).(stock := s)
            case Err(e) => r == Err(e)
  {
    var putawayQty := received - damage;
    if putawayQty > 0.0 {
      var status := if qcRequired then QualityHold else Available;
      var _ :- Add(db, Key(lot, warehouse, location, status), putawayQty, if qcRequired then GrnQcHold else GrnIn);
    }
    if damage > 0.0 {
      var _ :- Add(db, Key(lot, warehouse, location, Damaged), damage, GrnDamage);
    }
    return Ok(());
  }

  // ----- one line -----

  function ReceivedItem(
      receipt: nat, dto: GrnInput, line: GrnLine, poItem: Option<nat>, lot: Lot, qcRequired: bool): GrnItem
  {
    GrnItem(receipt, poItem, lot, dto.warehouse, dto.location, line.received, line.damage, line.short,
            qcRequired, if qcRequired then QcPending else QcWaived, 0.0, 0.0)
  }

  /** Creates the line's batch and item and puts the goods away. */
  function BookLine(
      p: Posting, company: Id, receipt: nat, dto: GrnInput, line: GrnLine, material: Id, poItem: Option<nat>,
      mode: QcMode, now: int): Result<Posting>
  {
    var db := p.db;
    var lot := Lot(company, material, |db.stock.batches|);
    var qcRequired := LineQcRequired(material in db.masters.materials
        && db.masters.materials[material].qcRequired, mode);
    var stock := db.stock.(batches := db.stock.batches
        + [Batch(company, material, line.batchNumber, now, line.expiryDate)]);
    var put :- PutAway(stock, lot, dto.warehouse, dto.location, line.received, line.damage, qcRequired);
    Ok(Posting(db.(stock := put, grnItems := db.grnItems + [ReceivedItem(receipt, dto, line, poItem, lot, qcRequired)]),
               p.anyQc || qcRequired))
  }

  /** The order item a line receives, or why not. */
  function PoLineChecked(db: Db, order: nat, dto: GrnInput, line: GrnLine): (r: Result<nat>)
    ensures r.Ok? ==> r.value < |db.poItems|
  {
    if line.poItem.None? then Err(BadRequest)
    else
      var id := line.poItem.value;
      if id >= |db.poItems| || db.poItems[id].order != order then Err(BadRequest)
      else if line.received <= 0.0 then Err(QuantityNotPositive)
      else
        var pending := db.poItems[id].ordered - db.poItems[id].received;
        if !dto.allowOverReceive && line.received - line.short > pending + 0.0001 then Err(OverReceipt) else Ok(id)
  }

  function PoLineBooked(
    p: Posting, company: Id, receipt: nat, order: nat, dto: GrnInput, line: GrnLine, mode: QcMode,
        now: int): Result<Posting>
  {
    var id :- PoLineChecked(p.db, order, dto, line);
    var item := p.db.poItems[id];
    var q :- BookLine(p, company, receipt, dto, line, item.material, Some(id), mode, now);
    Ok(q.(db := q.db.(poItems := q.db.poItems[id := item.(received := item.received + line.received - line.short)])))
  }

  function AdHocLineBooked(
      p: Posting, company: Id, receipt: nat, dto: GrnInput, line: GrnLine, mode: QcMode, now: int): Result<Posting>
  {
    if line.material.None? then Err(BadRequest)
    else if line.received <= 0.0 then Err(QuantityNotPositive)
    else if !KnownMaterial(p.db.masters, company, line.material.value) then Err(BadRequest)
    else BookLine(p, company, receipt, dto, line, line.material.value, None, mode, now)
  }

  /** Against an order when one is given, else ad hoc. */
  function LineBooked(
      p: Posting, company: Id, receipt: nat, dto: GrnInput, line: GrnLine, mode: QcMode, now: int): Result<Posting>
  {
    if dto.order.Some? then PoLineBooked(p, company, receipt, dto.order.value, dto, line, mode, now)
    else AdHocLineBooked(p, company, receipt, dto, line, mode, now)
  }

  function LinesBooked(
      p: Posting, company: Id, receipt: nat, dto: GrnInput, lines: seq<GrnLine>, mode: QcMode,
      now: int): Result<Posting>
    decreases |lines|
  {
    if lines == [] then Ok(p)
    else
      var q :- LineBooked(p, company, receipt, dto, lines[0], mode, now);
      LinesBooked(q, company, receipt, dto, lines[1..], mode, now)
  }

  // ----- the whole receipt -----

  predicate Covered(items: seq<PoItem>, order: nat) {
    forall i | 0 <= i < |items| :: items[i].order == order ==> items[i].received >= items[i].ordered
  }

  predicate AnyReceived(items: seq<PoItem>, order: nat) {
    exists i | 0 <= i < |items| :: items[i].order == order && items[i].received > 0.0
  }

  function OrderStatus(items: seq<PoItem>, order: nat): PoStatus {
    if Covered(items, order) then PoClosed else if AnyReceived(items, order) then PoPartial else PoOpen
  }

  /** Closes the posting: the order's status, then the receipt's. */
  function Settled(p: Posting, receipt: nat, order: Option<nat>, policy: Policy): Db
    requires receipt < |p.db.receipts| && (order.Some? ==> order.value < |p.db.orders|)
  {
    var db := p.db;
    var status := if p.anyQc then PendingQc else Approved;
    var ready := policy.accountsHandoffEnabled && status == Approved;
    var header := db.receipts[receipt].(status := status, readyForAccounts := ready);
    var orders :=
      if order.None? then db.orders
      else
        var o := order.value;
        db.orders[o := db.orders[o].(status := OrderStatus(db.poItems, o))];
    db.(receipts := db.receipts[receipt := header], orders := orders)
  }

  predicate MayOverReceive(dto: GrnInput, policy: Policy, permitted: bool) {
    dto.allowOverReceive ==> policy.overReceive != NeverOver && permitted
  }

  /** The checks before the transaction: the supplier, or why not. */
  function Admitted(db: Db, company: Id, dto: GrnInput, policy: Policy, permitted: bool): Result<Id> {
    if !MayOverReceive(dto, policy, permitted) then Err(BadRequest)
    else if (company, dto.warehouse) !in db.masters.warehouses then Err(NotFound)
    else if dto.location.Some?
        && (company, dto.warehouse, dto.location.value) !in db.masters.locations then Err(BadRequest)
    else if dto.lines == [] then Err(BadRequest)
    else if dto.order.Some? then
      if dto.order.value >= |db.orders| || db.orders[dto.order.value].company != company then Err(NotFound)
      else Ok(db.orders[dto.order.value].supplier)
    else if policy.grnRequiresPurchaseOrder then Err(BadRequest)
    else if dto.supplier.None? then Err(BadRequest)
    else if !KnownSupplier(db.masters, company, dto.supplier.value) then Err(NotFound)
    else Ok(dto.supplier.value)
  }

  function Opened(db: Db, company: Id, supplier: Id, order: Option<nat>): Posting {
    Posting(db.(receipts := db.receipts + [Receipt(company, supplier, order, DraftGrn, false)]), false)
  }

  function PostedGrn(db: Db, company: Id, dto: GrnInput, policy: Policy, permitted: bool, now: int): Result<Db> {
    var supplier :- Admitted(db, company, dto, policy, permitted);
    var p :- LinesBooked(Opened(db, company, supplier, dto.order), company, |db.receipts|, dto, dto.lines,
        policy.qcMode, now);
    LinesKeepHeaders(Opened(db, company, supplier, dto.order), company, |db.receipts|, dto, dto.lines, policy.qcMode,
        now);
    Ok(Settled(p, |db.receipts|, dto.order, policy))
  }

  /** Booking lines touches stock, GRN items and PO items only. */
  ghost predicate SameHeaders(db: Db, t: Db) {
    t == db.(stock := t.stock, grnItems := t.grnItems, poItems := t.poItems)
  }

  lemma {:induction false} LinesKeepHeaders(
      p: Posting, company: Id, receipt: nat, dto: GrnInput, lines: seq<GrnLine>, mode: QcMode, now: int)
    requires LinesBooked(p, company, receipt, dto, lines, mode, now).Ok?
    ensures SameHeaders(p.db, LinesBooked(p, company, receipt, dto, lines, mode, now).value.db)
    decreases |lines|
  {
    if lines == [] {
    } else {
      var q := LineBooked(p, company, receipt, dto, lines[0], mode, now).value;
      LinesKeepHeaders(q, company, receipt, dto, lines[1..], mode, now);
    }
  }

  // ----- posting, step by step -----

  method BookGrnLine(
      db: Database, anyQc: bool, company: Id, receipt: nat, dto: GrnInput, line: GrnLine, material: Id,
      poItem: Option<nat>, mode: QcMode, now: int)
    returns (r: Result<bool>)
    modifies db
    ensures match BookLine(Posting(old(db.State()), anyQc), company, receipt, dto, line, material, poItem, mode, now)
            case Ok(q) => r == Ok(q.anyQc) && db.State() == q.db
            case Err(e) => r == Err(e)
  {
    var lot := Lot(company, material, |db.batches|);
    db.batches := db.batches + [Batch(company, material, line.batchNumber, now, line.expiryDate)];
    var qcRequired := LineQcRequired(material in db.masters.materials
        && db.masters.materials[material].qcRequired, mode);
    db.grnItems := db.grnItems + [ReceivedItem(receipt, dto, line, poItem, lot, qcRequired)];
    var _ :- PutAwayLine(db, lot, dto.warehouse, dto.location, line.received, line.damage, qcRequired);
    return Ok(anyQc || qcRequired);
  }

  method CheckPoLine(db: Database, order: nat, dto: GrnInput, line: GrnLine) returns (r: Result<nat>)
    ensures r == PoLineChecked(db.State(), order, dto, line)
  {
    if line.poItem.None? {
      return Err(BadRequest);
    }
    var id := line.poItem.value;
    if id >= |db.poItems| || db.poItems[id].order != order {
      return Err(BadRequest);
    }
    var pending := db.poItems[id].ordered - db.poItems[id].received;
    if line.received <= 0.0 {
      return Err(QuantityNotPositive);
    }
    if !dto.allowOverReceive && line.received - line.short > pending + 0.0001 {
      return Err(OverReceipt);
    }
    return Ok(id);
  }

  method PostPoLine(
    db: Database, anyQc: bool, company: Id, receipt: nat, order: nat, dto: GrnInput, line: GrnLine, mode: QcMode,
        now: int)
    returns (r: Result<bool>)
    modifies db
    ensures match PoLineBooked(Posting(old(db.State()), anyQc), company, receipt, order, dto, line, mode, now)
            case Ok(q) => r == Ok(q.anyQc) && db.State() == q.db
            case Err(e) => r == Err(e)
  {
    var id :- CheckPoLine(db, order, dto, line);
    var item := db.poItems[id];
    var anyQc' :- BookGrnLine(db, anyQc, company, receipt, dto, line, item.material, Some(id), mode, now);
    db.poItems := db.poItems[id := item.(received := item.received + line.received - line.short)];
    return Ok(anyQc');
  }

  method PostAdHocLine(
      db: Database, anyQc: bool, company: Id, receipt: nat, dto: GrnInput, line: GrnLine, mode: QcMode, now: int)
    returns (r: Result<bool>)
    modifies db
    ensures match AdHocLineBooked(Posting(old(db.State()), anyQc), company, receipt, dto, line, mode, now)
            case Ok(q) => r == Ok(q.anyQc) && db.State() == q.db
            case Err(e) => r == Err(e)
  {
    if line.material.None? {
      return Err(BadRequest);
    }
    if line.received <= 0.0 {
      return Err(QuantityNotPositive);
    }
    if !KnownMaterial(db.masters, company, line.material.value) {
      return Err(BadRequest);
    }
    r := BookGrnLine(db, anyQc, company, receipt, dto, line, line.material.value, None, mode, now);
  }

  method PostLines(
      db: Database, company: Id, receipt: nat, dto: GrnInput, mode: QcMode, now: int) returns (r: Result<bool>)
    modifies db
    ensures match LinesBooked(Posting(old(db.State()), false), company, receipt, dto, dto.lines, mode, now)
            case Ok(q) => r == Ok(q.anyQc) && db.State() == q.db
            case Err(e) => r == Err(e)
  {
    var anyQc := false;
    var i := 0;
    while i < |dto.lines|
      invariant 0 <= i <= |dto.lines|
      invariant LinesBooked(Posting(db.State(), anyQc), company, receipt, dto, dto.lines[i..], mode, now)
             == LinesBooked(Posting(old(db.State()), false), company, receipt, dto, dto.lines, mode, now)
    {
      assert dto.lines[i..][1..] == dto.lines[i + 1..];
      if dto.order.Some? {
        anyQc :- PostPoLine(db, anyQc, company, receipt, dto.order.value, dto, dto.lines[i], mode, now);
      } else {
        anyQc :- PostAdHocLine(db, anyQc, company, receipt, dto, dto.lines[i], mode, now);
      }
      i := i + 1;
    }
    return Ok(anyQc);
  }

  /** Posts a receipt in one transaction. */
  method CreateAndPost(
      db: Database, company: Id, dto: GrnInput, policy: Policy, permitted: bool, now: int) returns (r: Result<nat>)
    modifies db
    ensures match PostedGrn(old(db.State()), company, dto, policy, permitted, now)
            case Ok(s) => r == Ok(old(|db.receipts|)) && db.State() == s
            case Err(e) => r == Err(e) && db.State() == old(db.State())
  {
    var supplier :- Admitted(db.State(), company, dto, policy, permitted);
    var before := db.State();
    var receipt := |db.receipts|;
    db.receipts := db.receipts + [Receipt(company, supplier, dto.order, DraftGrn, false)];
    assert db.State() == Opened(before, company, supplier, dto.order).db;
    var posted := PostLines(db, company, receipt, dto, policy.qcMode, now);
    if posted.Err? {
      db.Rollback(before);
      return Err(posted.error);
    }
    LinesKeepHeaders(Opened(before, company, supplier, dto.order), company, receipt, dto, dto.lines, policy.qcMode,
        now);
    ghost var p := Posting(db.State(), posted.value);
    if dto.order.Some? {
      var order := dto.order.value;
      db.orders := db.orders[order := db.orders[order].(status := OrderStatus(db.poItems, order))];
    }
    var status := if posted.value then PendingQc else Approved;
    db.receipts := db.receipts[receipt := db.receipts[receipt].(
      status := status, readyForAccounts := policy.accountsHandoffEnabled && status == Approved)];
    assert db.State() == Settled(p, receipt, dto.order, policy);
    return Ok(receipt);
  }

  // ----- inspection -----

  datatype Verdict = VerdictAccepted | VerdictRejected | VerdictHold | VerdictDeviation

  datatype QcLine = QcLine(item: nat, verdict: Verdict, accepted: real, rejected: real)

  function StatusAfter(verdict: Verdict): QcStatus {
    match verdict
    case VerdictHold => QcHeld
    case VerdictRejected => QcRejected
    case _ => QcAccepted
  }

  /** Counters are written from the row as read before the inspection began. */
  function Inspected(current: GrnItem, read: GrnItem, line: QcLine): GrnItem {
    current.(accepted := read.accepted + line.accepted,
             rejected := read.rejected + line.rejected,
             qcStatus := StatusAfter(line.verdict))
  }

  function OnHold(company: Id, item: GrnItem): Key {
    Key(Lot(company, item.lot.material, item.lot.batch), item.warehouse, item.location, QualityHold)
  }

  function QcStock(s: Stock, hold: Key, line: QcLine): Result<Stock> {
    var s1 :- MovedIfPositive(s, hold, hold.(status := Available), line.accepted, QcRelease, QcAccept);
    MovedIfPositive(s1, hold, hold.(status := Rejected), line.rejected, QcRelease, QcReject)
  }

  function QcLineApplied(db: Db, read: seq<GrnItem>, company: Id, receipt: nat, line: QcLine): (r: Result<Db>)
    requires |read| == |db.grnItems|
    ensures r.Ok? ==> |r.value.grnItems| == |db.grnItems|
  {
    if line.item >= |read| || read[line.item].receipt != receipt then Err(BadRequest)
    else
      var stock :- QcStock(db.stock, OnHold(company, read[line.item]), line);
      Ok(db.(stock := stock,
          grnItems := db.grnItems[line.item := Inspected(db.grnItems[line.item], read[line.item], line)]))
  }

  function QcLinesApplied(db: Db, read: seq<GrnItem>, company: Id, receipt: nat, lines: seq<QcLine>): (r: Result<Db>)
    requires |read| == |db.grnItems|
    decreases |lines|
  {
    if lines == [] then Ok(db)
    else
      var t :- QcLineApplied(db, read, company, receipt, lines[0]);
      QcLinesApplied(t, read, company, receipt, lines[1..])
  }

  predicate AwaitsQc(item: GrnItem, receipt: nat) {
    item.receipt == receipt && item.qcRequired && item.qcStatus.QcPending?
  }

  function StatusAfterQc(items: seq<GrnItem>, receipt: nat): ReceiptStatus {
    var pending := exists i | 0 <= i < |items| :: AwaitsQc(items[i], receipt);
    var anyAccepted := exists i | 0 <= i < |items| :: items[i].receipt == receipt && items[i].accepted > 0.0;
    var anyRejected := exists i | 0 <= i < |items| :: items[i].receipt == receipt && items[i].rejected > 0.0;
    if pending then PendingQc
    else if anyAccepted && anyRejected then PartialGrn
    else if anyAccepted then Approved
    else if anyRejected then RejectedGrn
    else Completed
  }

  function ReceiptAfterQc(header: Receipt, items: seq<GrnItem>, receipt: nat, policy: Policy): Receipt {
    var status := StatusAfterQc(items, receipt);
    header.(status := status,
            readyForAccounts := policy.accountsHandoffEnabled && (status == Approved || status == PartialGrn))
  }

  function QcApplied(db: Db, company: Id, receipt: nat, lines: seq<QcLine>, policy: Policy): Result<Db> {
    if receipt >= |db.receipts| || db.receipts[receipt].company != company then Err(NotFound)
    else if db.receipts[receipt].status != PendingQc && db.receipts[receipt].status != PartialGrn then Err(NotPendingQc)
    else
      var t :- QcLinesApplied(db, db.grnItems, company, receipt, lines);
      Ok(t.(receipts := db.receipts[receipt := ReceiptAfterQc(db.receipts[receipt], t.grnItems, receipt, policy)]))
  }

  method ApplyQcLine(db: Database, read: seq<GrnItem>, company: Id, receipt: nat, line: QcLine) returns (r: Result<()>)
    requires |read| == |db.grnItems|
    modifies db
    ensures match QcLineApplied(old(db.State()), read, company, receipt, line)
            case Ok(s) => r.Ok? && db.State() == s
            case Err(e) => r == Err(e)
  {
    if line.item >= |read| || read[line.item].receipt != receipt {
      return Err(BadRequest);
    }
    var hold := OnHold(company, read[line.item]);
    db.grnItems := db.grnItems[line.item := Inspected(db.grnItems[line.item], read[line.item], line)];
    if line.accepted > 0.0 {
      var _ :- Move(db, hold, hold.(status := Available), line.accepted, QcRelease, QcAccept);
    }
    if line.rejected > 0.0 {
      var _ :- Move(db, hold, hold.(status := Rejected), line.rejected, QcRelease, QcReject);
    }
    return Ok(());
  }

  method ApplyQcLines(db: Database, company: Id, receipt: nat, lines: seq<QcLine>) returns (r: Result<()>)
    modifies db
    ensures match QcLinesApplied(old(db.State()), old(db.grnItems), company, receipt, lines)
            case Ok(s) => r.Ok? && db.State() == s
            case Err(e) => r == Err(e)
  {
    var read := db.grnItems;
    var i := 0;
    while i < |lines|
      invariant 0 <= i <= |lines| && |read| == |db.grnItems|
      invariant QcLinesApplied(db.State(), read, company, receipt, lines[i..])
             == QcLinesApplied(old(db.State()), read, company, receipt, lines)
    {
      assert lines[i..][1..] == lines[i + 1..];
      var _ :- ApplyQcLine(db, read, company, receipt, lines[i]);
      i := i + 1;
    }
    return Ok(());
  }

  method ApplyQc(db: Database, company: Id, receipt: nat, lines: seq<QcLine>, policy: Policy) returns (r: Result<()>)
    modifies db
    ensures match QcApplied(old(db.State()), company, receipt, lines, policy)
            case Ok(s) => r.Ok? && db.State() == s
            case Err(e) => r == Err(e) && db.State() == old(db.State())
  {
    if receipt >= |db.receipts| || db.receipts[receipt].company != company {
      return Err(NotFound);
    }
    if db.receipts[receipt].status != PendingQc && db.receipts[receipt].status != PartialGrn {
      return Err(NotPendingQc);
    }
    var before := db.State();
    var applied := ApplyQcLines(db, company, receipt, lines);
    if applied.Err? {
      db.Rollback(before);
      return Err(applied.error);
    }
    QcLinesTouchItems(before, before.grnItems, company, receipt, lines);
    db.receipts := db.receipts[receipt := ReceiptAfterQc(db.receipts[receipt], db.grnItems, receipt, policy)];
    return Ok(());
  }

  lemma {:induction false} QcLinesTouchItems(db: Db, read: seq<GrnItem>, company: Id, receipt: nat, lines: seq<QcLine>)
    requires |read| == |db.grnItems| && QcLinesApplied(db, read, company, receipt, lines).Ok?
    ensures var t := QcLinesApplied(db, read, company, receipt, lines).value;
            t == db.(stock := t.stock, grnItems := t.grnItems) && |t.grnItems| == |db.grnItems|
    decreases |lines|
  {
    if lines == [] {
    } else {
      QcLinesTouchItems(QcLineApplied(db, read, company, receipt, lines[0]).value, read, company, receipt, lines[1..]);
    }
  }
}
