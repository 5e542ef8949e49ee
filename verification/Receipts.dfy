/** What receipts record and inspections show. */
module Receipts {
  import opened Base
  import opened Sequences
  import opened Tables
  import opened StockEngine
  import opened Invariants
  import opened Workflow
  import opened Grn
  import opened GrnLaws
  import opened Destinations

  // ----- which receipts are accepted -----

  /** What lines add to the received quantity of an order item. */
  function NetOf(lines: seq<GrnLine>, item: nat): real {
    if lines == [] then 0.0
    else (if lines[0].poItem == Some(item) then lines[0].received - lines[0].short else 0.0) + NetOf(lines[1..], item)
  }

  /** The i-th line receives something: of an item of the receipt's order, which without
      over-receipt has that much pending after the lines so far; or, without an order, of a
      material of the company. */
  predicate LineFits(db: Db, company: Id, dto: GrnInput, lines: seq<GrnLine>, i: nat)
    requires i < |lines|
  {
    && lines[i].received > 0.0
    && (dto.order.Some? ==>
          && lines[i].poItem.Some? && lines[i].poItem.value < |db.poItems|
          && var item := db.poItems[lines[i].poItem.value];
          && item.order == dto.order.value
          && (dto.allowOverReceive
              || NetOf(lines[..i + 1], lines[i].poItem.value) <= item.ordered - item.received + 0.0001))
    && (dto.order.None? ==>
          && lines[i].material.Some? && lines[i].material.value in db.masters.materials
          && db.masters.materials[lines[i].material.value].company == company)
  }

  /** A batch of its own takes any parts of a line. */
  lemma BookLineSucceeds(
      p: Posting, company: Id, receipt: nat, dto: GrnInput, line: GrnLine, material: Id, poItem: Option<nat>,
      mode: QcMode, now: int)
    ensures BookLine(p, company, receipt, dto, line, material, poItem, mode, now).Ok?
  {
  }

  /** What lines of the receipt add to its order's items, and nothing else about them. */
  predicate AddsNet(before: seq<PoItem>, after: seq<PoItem>, order: Option<nat>, lines: seq<GrnLine>) {
    && |after| == |before|
    && forall k: nat | k < |before| ::
         after[k] == before[k].(received := before[k].received + if order.Some? then NetOf(lines, k) else 0.0)
  }

  lemma PoLineBookedExactlyWhen(
      p: Posting, company: Id, receipt: nat, order: nat, dto: GrnInput, line: GrnLine, mode: QcMode, now: int)
    requires dto.order == Some(order)
    ensures var r := PoLineBooked(p, company, receipt, order, dto, line, mode, now);
            && (r.Ok? <==> LineFits(p.db, company, dto, [line], 0))
            && (r.Ok? ==>
                  r.value.db.masters == p.db.masters && AddsNet(p.db.poItems, r.value.db.poItems, dto.order, [line]))
  {
    assert [line][..1] == [line] && [line][1..] == [];
    if line.poItem.Some? && line.poItem.value < |p.db.poItems| {
      var id := line.poItem.value;
      assert NetOf([line], id) == line.received - line.short;
      BookLineSucceeds(p, company, receipt, dto, line, p.db.poItems[id].material, Some(id), mode, now);
    }
  }

  /** What booking one line does to order items, and when it succeeds. */
  lemma LineBookedExactlyWhen(
      p: Posting, company: Id, receipt: nat, dto: GrnInput, line: GrnLine, mode: QcMode, now: int)
    ensures var r := LineBooked(p, company, receipt, dto, line, mode, now);
            && (r.Ok? <==> LineFits(p.db, company, dto, [line], 0))
            && (r.Ok? ==>
                  r.value.db.masters == p.db.masters && AddsNet(p.db.poItems, r.value.db.poItems, dto.order, [line]))
  {
    if dto.order.Some? {
      PoLineBookedExactlyWhen(p, company, receipt, dto.order.value, dto, line, mode, now);
    } else if line.material.Some? {
      BookLineSucceeds(p, company, receipt, dto, line, line.material.value, None, mode, now);
    }
  }

  lemma NetThen(
      a: seq<PoItem>, b: seq<PoItem>, c: seq<PoItem>, order: Option<nat>, lines: seq<GrnLine>)
    requires lines != [] && AddsNet(a, b, order, lines[..1]) && AddsNet(b, c, order, lines[1..])
    ensures AddsNet(a, c, order, lines)
  {
    assert lines[..1][1..] == [];
    assert forall k: nat :: NetOf(lines, k) == NetOf(lines[..1], k) + NetOf(lines[1..], k);
  }

  lemma {:induction false} LinesBookedExactlyWhen(
      p: Posting, company: Id, receipt: nat, dto: GrnInput, lines: seq<GrnLine>, mode: QcMode, now: int)
    ensures var r := LinesBooked(p, company, receipt, dto, lines, mode, now);
            && (r.Ok? <==> forall i: nat | i < |lines| :: LineFits(p.db, company, dto, lines, i))
            && (r.Ok? ==> AddsNet(p.db.poItems, r.value.db.poItems, dto.order, lines))
    decreases |lines|
  {
    if lines == [] {
    } else {
      var rest := lines[1..];
      var first := LineBooked(p, company, receipt, dto, lines[0], mode, now);
      LineBookedExactlyWhen(p, company, receipt, dto, lines[0], mode, now);
      assert [lines[0]] == lines[..1] && [lines[0]][..1] == lines[..1];
      assert LineFits(p.db, company, dto, [lines[0]], 0) <==> LineFits(p.db, company, dto, lines, 0);
      if first.Ok? {
        LinesBookedExactlyWhen(first.value, company, receipt, dto, rest, mode, now);
        AllFit(p.db, first.value.db, company, dto, lines);
        var all := LinesBooked(first.value, company, receipt, dto, rest, mode, now);
        if all.Ok? {
          NetThen(p.db.poItems, first.value.db.poItems, all.value.db.poItems, dto.order, lines);
        }
      }
    }
  }

  /** Judging the rest after the first line is judging it before, with what that line adds. */
  lemma AllFit(db: Db, after: Db, company: Id, dto: GrnInput, lines: seq<GrnLine>)
    requires lines != [] && after.masters == db.masters
    requires AddsNet(db.poItems, after.poItems, dto.order, lines[..1])
    ensures LineFits(db, company, dto, lines, 0)
              && (forall i: nat | i < |lines[1..]| :: LineFits(after, company, dto, lines[1..], i))
            <==> forall i: nat | i < |lines| :: LineFits(db, company, dto, lines, i)
  {
    forall i: nat | i < |lines[1..]|
      ensures LineFits(after, company, dto, lines[1..], i) <==> LineFits(db, company, dto, lines, i + 1)
    {
      RestFits(db, after, company, dto, lines, i);
    }
    if LineFits(db, company, dto, lines, 0)
        && forall i: nat | i < |lines[1..]| :: LineFits(after, company, dto, lines[1..], i) {
      forall i: nat | i < |lines|
        ensures LineFits(db, company, dto, lines, i)
      {
        assert i > 0 ==> LineFits(after, company, dto, lines[1..], i - 1);
      }
    }
  }

  lemma RestFits(db: Db, after: Db, company: Id, dto: GrnInput, lines: seq<GrnLine>, i: nat)
    requires i + 1 < |lines| && after.masters == db.masters
    requires AddsNet(db.poItems, after.poItems, dto.order, lines[..1])
    ensures LineFits(after, company, dto, lines[1..], i) <==> LineFits(db, company, dto, lines, i + 1)
  {
    var line := lines[i + 1];
    if line.poItem.Some? {
      var id := line.poItem.value;
      assert lines[..i + 2][1..] == lines[1..][..i + 1];
      assert lines[..1][1..] == [];
      assert NetOf(lines[..i + 2], id) == NetOf(lines[..1], id) + NetOf(lines[1..][..i + 1], id);
    }
  }

  /** A receipt is accepted exactly when its header is admissible and each line fits, judged
      on the state before it; then each item of its order has received what the lines say. */
  lemma PostedGrnExactlyWhen(db: Db, company: Id, dto: GrnInput, policy: Policy, permitted: bool, now: int)
    ensures PostedGrn(db, company, dto, policy, permitted, now).Ok? <==>
              && (dto.allowOverReceive ==> permitted && policy.overReceive != NeverOver)
              && (company, dto.warehouse) in db.masters.warehouses
              && (dto.location.Some? ==> (company, dto.warehouse, dto.location.value) in db.masters.locations)
              && dto.lines != []
              && (dto.order.Some? ==>
                    dto.order.value < |db.orders| && db.orders[dto.order.value].company == company)
              && (dto.order.None? ==>
                    && !policy.grnRequiresPurchaseOrder
                    && dto.supplier.Some? && dto.supplier.value in db.masters.suppliers
                    && db.masters.suppliers[dto.supplier.value] == company)
              && forall i: nat | i < |dto.lines| :: LineFits(db, company, dto, dto.lines, i)
    ensures PostedGrn(db, company, dto, policy, permitted, now).Ok? ==>
              AddsNet(db.poItems, PostedGrn(db, company, dto, policy, permitted, now).value.poItems, dto.order,
                      dto.lines)
  {
    var admitted := Admitted(db, company, dto, policy, permitted);
    if admitted.Ok? {
      var start := Opened(db, company, admitted.value, dto.order);
      LinesBookedExactlyWhen(start, company, |db.receipts|, dto, dto.lines, policy.qcMode, now);
      assert forall i: nat | i < |dto.lines| ::
          LineFits(start.db, company, dto, dto.lines, i) <==> LineFits(db, company, dto, dto.lines, i);
    }
  }

  // ----- what a receipt records -----

  /** The item and batch of a line, by the line's own fields. */
  predicate Records(
      db: Db, company: Id, receipt: nat, dto: GrnInput, line: GrnLine, mode: QcMode, now: int, number: nat,
      item: GrnItem, batch: Batch)
  {
    var material := item.lot.material;
    && (dto.order.Some? ==>
          && line.poItem.Some? && line.poItem.value < |db.poItems|
          && material == db.poItems[line.poItem.value].material && item.poItem == line.poItem)
    && (dto.order.None? ==> line.material == Some(material) && item.poItem == None)
    && item.receipt == receipt && item.lot == Lot(company, material, number)
    && item.warehouse == dto.warehouse && item.location == dto.location
    && item.received == line.received && item.damage == line.damage && item.short == line.short
    && (item.qcRequired <==>
          mode == Always || (mode == ByMaterial && material in db.masters.materials
                             && db.masters.materials[material].qcRequired))
    && item.qcStatus == (if item.qcRequired then QcPending else QcWaived)
    && item.accepted == 0.0 && item.rejected == 0.0
    && batch == Batch(company, material, line.batchNumber, now, line.expiryDate)
  }

  /** What an item's goods bring to a place: the good part on hold when it must be inspected
      and available otherwise, the damaged part damaged. */
  function BroughtBy(item: GrnItem, key: Key): real {
    if key.lot != item.lot || key.warehouse != item.warehouse || key.location != item.location then 0.0
    else if key.status == Damaged then Positive(item.damage)
    else if key.status == (if item.qcRequired then QualityHold else Available)
    then Positive(item.received - item.damage)
    else 0.0
  }

  function BroughtByAll(items: seq<GrnItem>, key: Key): real {
    if items == [] then 0.0 else BroughtBy(items[0], key) + BroughtByAll(items[1..], key)
  }

  lemma AddedIfAt(s: Stock, posted: Key, quantity: real, kind: Kind, key: Key)
    requires Agrees(s) && AddedIfPositive(s, posted, quantity, kind).Ok?
    ensures var t := AddedIfPositive(s, posted, quantity, kind).value;
            && Agrees(t) && t.batches == s.batches
            && At(t, key) == At(s, key) + (if key == posted then Positive(quantity) else 0.0)
  {
    if quantity > 0.0 {
      AddedAgrees(s, posted, quantity, kind);
      ShiftAt(s, AddedIfPositive(s, posted, quantity, kind).value, posted, quantity, key);
    }
  }

  lemma PartsAt(s: Stock, good: Key, put: real, kind: Kind, bad: Key, damage: real, t: Stock, key: Key)
    requires Agrees(s) && AddedIfPositive(s, good, put, kind).Ok?
    requires AddedIfPositive(AddedIfPositive(s, good, put, kind).value, bad, damage, GrnDamage) == Ok(t)
    ensures Agrees(t) && t.batches == s.batches
    ensures At(t, key) == At(s, key) + (if key == good then Positive(put) else 0.0)
                                     + (if key == bad then Positive(damage) else 0.0)
  {
    AddedIfAt(s, good, put, kind, key);
    AddedIfAt(AddedIfPositive(s, good, put, kind).value, bad, damage, GrnDamage, key);
  }

  lemma BroughtByParts(item: GrnItem, key: Key)
    ensures BroughtBy(item, key)
         == (if key == GoodKey(item.lot, item.warehouse, item.location, item.qcRequired)
             then Positive(item.received - item.damage) else 0.0)
            + (if key == Key(item.lot, item.warehouse, item.location, Damaged) then Positive(item.damage) else 0.0)
  {
  }

  lemma PutAwayAt(s: Stock, item: GrnItem, key: Key)
    requires Agrees(s)
    requires PutAway(s, item.lot, item.warehouse, item.location, item.received, item.damage, item.qcRequired).Ok?
    ensures var t := PutAway(s, item.lot, item.warehouse, item.location, item.received, item.damage,
                item.qcRequired).value;
            Agrees(t) && t.batches == s.batches && At(t, key) == At(s, key) + BroughtBy(item, key)
  {
    var t := PutAway(s, item.lot, item.warehouse, item.location, item.received, item.damage, item.qcRequired).value;
    BroughtByParts(item, key);
    PartsAt(s, GoodKey(item.lot, item.warehouse, item.location, item.qcRequired), item.received - item.damage,
        if item.qcRequired then GrnQcHold else GrnIn, Key(item.lot, item.warehouse, item.location, Damaged),
        item.damage, t, key);
  }

  lemma BookLineRecords(
      p: Posting, company: Id, receipt: nat, dto: GrnInput, line: GrnLine, material: Id, poItem: Option<nat>,
      mode: QcMode, now: int, key: Key)
    returns (item: GrnItem, batch: Batch)
    requires Agrees(p.db.stock) && BookLine(p, company, receipt, dto, line, material, poItem, mode, now).Ok?
    requires dto.order.Some? ==>
               && line.poItem.Some? && line.poItem.value < |p.db.poItems| && poItem == line.poItem
               && material == p.db.poItems[line.poItem.value].material
    requires dto.order.None? ==> line.material == Some(material) && poItem == None
    ensures var q := BookLine(p, company, receipt, dto, line, material, poItem, mode, now).value;
            && Records(p.db, company, receipt, dto, line, mode, now, |p.db.stock.batches|, item, batch)
            && Agrees(q.db.stock) && q.db == p.db.(stock := q.db.stock, grnItems := p.db.grnItems + [item])
            && q.db.stock.batches == p.db.stock.batches + [batch]
            && (q.anyQc <==> p.anyQc || item.qcRequired)
            && At(q.db.stock, key) == At(p.db.stock, key) + BroughtBy(item, key)
  {
    var q := BookLine(p, company, receipt, dto, line, material, poItem, mode, now).value;
    item, batch := q.db.grnItems[|p.db.grnItems|], q.db.stock.batches[|p.db.stock.batches|];
    var stock := p.db.stock.(batches := p.db.stock.batches + [batch]);
    assert Agrees(stock);
    PutAwayAt(stock, item, key);
  }

  lemma LineRecords(
      p: Posting, company: Id, receipt: nat, dto: GrnInput, line: GrnLine, mode: QcMode, now: int, key: Key)
    returns (item: GrnItem, batch: Batch)
    requires Agrees(p.db.stock) && LineBooked(p, company, receipt, dto, line, mode, now).Ok?
    ensures var q := LineBooked(p, company, receipt, dto, line, mode, now).value;
            && Records(p.db, company, receipt, dto, line, mode, now, |p.db.stock.batches|, item, batch)
            && Agrees(q.db.stock)
            && q.db == p.db.(stock := q.db.stock, grnItems := p.db.grnItems + [item], poItems := q.db.poItems)
            && q.db.stock.batches == p.db.stock.batches + [batch]
            && (q.anyQc <==> p.anyQc || item.qcRequired)
            && At(q.db.stock, key) == At(p.db.stock, key) + BroughtBy(item, key)
  {
    var material := if dto.order.Some? then p.db.poItems[line.poItem.value].material else line.material.value;
    var poItem := if dto.order.Some? then line.poItem else None;
    item, batch := BookLineRecords(p, company, receipt, dto, line, material, poItem, mode, now, key);
  }

  predicate NeedsQc(items: seq<GrnItem>) {
    exists i | 0 <= i < |items| :: items[i].qcRequired
  }

  /** The lines' items and batches, in the lines' order. */
  predicate AllRecord(
      db: Db, company: Id, receipt: nat, dto: GrnInput, lines: seq<GrnLine>, mode: QcMode, now: int, first: nat,
      items: seq<GrnItem>, batches: seq<Batch>)
  {
    && |items| == |lines| == |batches|
    && forall i: nat | i < |lines| ::
         Records(db, company, receipt, dto, lines[i], mode, now, first + i, items[i], batches[i])
  }

  /** From one state of a posting to another, these items and batches are appended. */
  predicate Appends(p: Posting, q: Posting, items: seq<GrnItem>, batches: seq<Batch>) {
    && q.db.grnItems == p.db.grnItems + items && q.db.stock.batches == p.db.stock.batches + batches
    && (q.anyQc <==> p.anyQc || NeedsQc(items))
  }

  lemma AppendsOne(p: Posting, q: Posting, item: GrnItem, batch: Batch)
    requires q.db.grnItems == p.db.grnItems + [item] && q.db.stock.batches == p.db.stock.batches + [batch]
    requires q.anyQc <==> p.anyQc || item.qcRequired
    ensures Appends(p, q, [item], [batch])
  {
    assert [item][0] == item;
  }

  lemma AppendsThen(
      p: Posting, q: Posting, t: Posting, item: GrnItem, batch: Batch, items: seq<GrnItem>, batches: seq<Batch>)
    requires Appends(p, q, [item], [batch]) && Appends(q, t, items, batches)
    ensures Appends(p, t, [item] + items, [batch] + batches)
  {
    var all := [item] + items;
    assert all[0] == item && forall i | 0 <= i < |items| :: all[i + 1] == items[i];
    Regroup(p.db.grnItems, [item], items);
    Regroup(p.db.stock.batches, [batch], batches);
  }

  lemma {:induction false} LinesRecord(
      p: Posting, company: Id, receipt: nat, dto: GrnInput, lines: seq<GrnLine>, mode: QcMode, now: int, key: Key)
    returns (items: seq<GrnItem>, batches: seq<Batch>)
    requires Agrees(p.db.stock) && LinesBooked(p, company, receipt, dto, lines, mode, now).Ok?
    ensures var q := LinesBooked(p, company, receipt, dto, lines, mode, now).value;
            && AllRecord(p.db, company, receipt, dto, lines, mode, now, |p.db.stock.batches|, items, batches)
            && Appends(p, q, items, batches)
            && At(q.db.stock, key) == At(p.db.stock, key) + BroughtByAll(items, key)
    decreases |lines|
  {
    if lines == [] {
      items, batches := [], [];
    } else {
      var q := LineBooked(p, company, receipt, dto, lines[0], mode, now).value;
      var item, batch := LineRecords(p, company, receipt, dto, lines[0], mode, now, key);
      AppendsOne(p, q, item, batch);
      var laterItems, laterBatches := LinesRecord(q, company, receipt, dto, lines[1..], mode, now, key);
      items, batches := [item] + laterItems, [batch] + laterBatches;
      AppendsThen(p, q, LinesBooked(q, company, receipt, dto, lines[1..], mode, now).value, item, batch, laterItems,
          laterBatches);
      assert items[1..] == laterItems && batches[1..] == laterBatches;
      LineKeepsMaterials(p, company, receipt, dto, lines[0], mode, now);
      RestRecords(p.db, q.db, company, receipt, dto, lines, mode, now, |p.db.stock.batches|, items, batches);
    }
  }

  lemma LineKeepsMaterials(
      p: Posting, company: Id, receipt: nat, dto: GrnInput, line: GrnLine, mode: QcMode, now: int)
    requires LineBooked(p, company, receipt, dto, line, mode, now).Ok?
    ensures var q := LineBooked(p, company, receipt, dto, line, mode, now).value;
            && q.db.masters == p.db.masters && |q.db.poItems| == |p.db.poItems|
            && forall k: nat | k < |p.db.poItems| :: q.db.poItems[k].material == p.db.poItems[k].material
  {
    LineBookedExactlyWhen(p, company, receipt, dto, line, mode, now);
  }

  lemma RestRecords(
      db: Db, after: Db, company: Id, receipt: nat, dto: GrnInput, lines: seq<GrnLine>, mode: QcMode, now: int,
      first: nat, items: seq<GrnItem>, batches: seq<Batch>)
    requires lines != [] && items != [] && batches != []
    requires after.masters == db.masters && |after.poItems| == |db.poItems|
    requires forall k: nat | k < |db.poItems| :: after.poItems[k].material == db.poItems[k].material
    requires Records(db, company, receipt, dto, lines[0], mode, now, first, items[0], batches[0])
    requires AllRecord(after, company, receipt, dto, lines[1..], mode, now, first + 1, items[1..], batches[1..])
    ensures AllRecord(db, company, receipt, dto, lines, mode, now, first, items, batches)
  {
    forall i: nat | i < |lines|
      ensures Records(db, company, receipt, dto, lines[i], mode, now, first + i, items[i], batches[i])
    {
      if i > 0 {
        assert Records(after, company, receipt, dto, lines[1..][i - 1], mode, now, first + 1 + (i - 1),
            items[1..][i - 1], batches[1..][i - 1]);
      }
    }
  }

  /** The receipt's own row. */
  predicate ReceiptOpens(db: Db, company: Id, dto: GrnInput, receipt: Receipt, needsQc: bool, handoff: bool) {
    && receipt.company == company && receipt.order == dto.order
    && (dto.order.Some? ==> dto.order.value < |db.orders| && receipt.supplier == db.orders[dto.order.value].supplier)
    && (dto.order.None? ==> dto.supplier == Some(receipt.supplier))
    && receipt.status == (if needsQc then PendingQc else Approved)
    && (receipt.readyForAccounts <==> handoff && !needsQc)
  }

  /** The status of an order, settled again when a receipt names it. */
  predicate OrderStands(items: seq<PoItem>, order: nat, before: PoStatus, after: PoStatus, named: bool) {
    var done := forall i | 0 <= i < |items| && items[i].order == order :: items[i].received >= items[i].ordered;
    var started := exists i | 0 <= i < |items| :: items[i].order == order && items[i].received > 0.0;
    && (!named ==> after == before)
    && (named ==> after == if done then PoClosed else if started then PoPartial else PoOpen)
  }

  /** A receipt appends one item and one batch a line, by the lines' fields, and its goods
      arrive where its items say. */
  lemma PostedGrnRecords(db: Db, company: Id, dto: GrnInput, policy: Policy, permitted: bool, now: int, key: Key)
    returns (items: seq<GrnItem>, batches: seq<Batch>)
    requires Agrees(db.stock) && PostedGrn(db, company, dto, policy, permitted, now).Ok?
    ensures var t := PostedGrn(db, company, dto, policy, permitted, now).value;
            && t.grnItems == db.grnItems + items && t.stock.batches == db.stock.batches + batches
            && AllRecord(db, company, |db.receipts|, dto, dto.lines, policy.qcMode, now, |db.stock.batches|, items,
                         batches)
            && At(t.stock, key) == At(db.stock, key) + BroughtByAll(items, key)
  {
    var supplier := Admitted(db, company, dto, policy, permitted).value;
    var start := Opened(db, company, supplier, dto.order);
    items, batches := LinesRecord(start, company, |db.receipts|, dto, dto.lines, policy.qcMode, now, key);
    SameRecords(db, start.db, company, |db.receipts|, dto, policy.qcMode, now, |db.stock.batches|, items, batches);
  }

  lemma SameRecords(
      db: Db, after: Db, company: Id, receipt: nat, dto: GrnInput, mode: QcMode, now: int, first: nat,
      items: seq<GrnItem>, batches: seq<Batch>)
    requires after.masters == db.masters && after.poItems == db.poItems
    requires AllRecord(after, company, receipt, dto, dto.lines, mode, now, first, items, batches)
    ensures AllRecord(db, company, receipt, dto, dto.lines, mode, now, first, items, batches)
  {
    forall i: nat | i < |dto.lines|
      ensures Records(db, company, receipt, dto, dto.lines[i], mode, now, first + i, items[i], batches[i])
    {
      assert Records(after, company, receipt, dto, dto.lines[i], mode, now, first + i, items[i], batches[i]);
    }
  }

  lemma LinesMark(db: Db, start: Posting, company: Id, receipt: nat, dto: GrnInput, mode: QcMode, now: int)
    returns (q: Posting)
    requires Agrees(db.stock) && !start.anyQc
    requires start.db.stock == db.stock && start.db.grnItems == db.grnItems
    requires LinesBooked(start, company, receipt, dto, dto.lines, mode, now).Ok?
    ensures LinesBooked(start, company, receipt, dto, dto.lines, mode, now) == Ok(q) && SameHeaders(start.db, q.db)
    ensures |db.grnItems| <= |q.db.grnItems| && (q.anyQc <==> NeedsQc(q.db.grnItems[|db.grnItems|..]))
  {
    q := LinesBooked(start, company, receipt, dto, dto.lines, mode, now).value;
    LinesKeepHeaders(start, company, receipt, dto, dto.lines, mode, now);
    var items, batches := LinesRecord(start, company, receipt, dto, dto.lines, mode, now,
        Key(Lot(0, 0, 0), 0, None, Available));
    assert q.db.grnItems[|db.grnItems|..] == items;
  }

  /** A receipt's own row says whether any of its items must be inspected, and its order's
      row what has been received so far; no other row of either table changes. */
  lemma PostedGrnSettles(db: Db, company: Id, dto: GrnInput, policy: Policy, permitted: bool, now: int)
    requires Agrees(db.stock) && PostedGrn(db, company, dto, policy, permitted, now).Ok?
    ensures var t := PostedGrn(db, company, dto, policy, permitted, now).value;
            && t == db.(stock := t.stock, grnItems := t.grnItems, poItems := t.poItems, orders := t.orders,
                        receipts := t.receipts)
            && |db.grnItems| <= |t.grnItems| && |t.receipts| == |db.receipts| + 1 && |t.orders| == |db.orders|
            && (forall r: nat | r < |db.receipts| :: t.receipts[r] == db.receipts[r])
            && ReceiptOpens(db, company, dto, t.receipts[|db.receipts|], NeedsQc(t.grnItems[|db.grnItems|..]),
                            policy.accountsHandoffEnabled)
            && forall o: nat | o < |db.orders| ::
                 && t.orders[o] == db.orders[o].(status := t.orders[o].status)
                 && OrderStands(t.poItems, o, db.orders[o].status, t.orders[o].status, dto.order == Some(o))
  {
    var supplier := Admitted(db, company, dto, policy, permitted).value;
    var q := LinesMark(db, Opened(db, company, supplier, dto.order), company, |db.receipts|, dto, policy.qcMode, now);
  }

  // ----- which inspections are accepted -----

  /** Where an item's goods wait for inspection. */
  function HeldAt(company: Id, item: GrnItem): Key {
    Key(Lot(company, item.lot.material, item.lot.batch), item.warehouse, item.location, QualityHold)
  }

  lemma MovedIfExactlyWhen(s: Stock, from: Key, to: Key, quantity: real, outKind: Kind, inKind: Kind)
    requires Agrees(s) && to.lot == from.lot
    ensures MovedIfPositive(s, from, to, quantity, outKind, inKind).Ok? <==> Positive(quantity) <= At(s, from)
  {
    AtNonNegative(s, from);
    MovedExactlyWhen(s, from, to, quantity, outKind, inKind);
    RowHoldsKey(s.rows, from);
  }

  lemma QcStockExactlyWhen(s: Stock, hold: Key, line: QcLine)
    requires Agrees(s) && hold.status == QualityHold
    ensures QcStock(s, hold, line).Ok? <==> Positive(line.accepted) + Positive(line.rejected) <= At(s, hold)
  {
    var good := hold.(status := Available);
    MovedIfExactlyWhen(s, hold, good, line.accepted, QcRelease, QcAccept);
    var r := MovedIfPositive(s, hold, good, line.accepted, QcRelease, QcAccept);
    if r.Ok? {
      MovedIfAt(s, hold, good, line.accepted, QcRelease, QcAccept, hold);
      MovedIfExactlyWhen(r.value, hold, hold.(status := Rejected), line.rejected, QcRelease, QcReject);
    }
  }

  lemma {:induction false} VerdictsNonNegative(lines: seq<QcLine>, j: nat)
    ensures AcceptedOf(lines, j) >= 0.0 && RejectedOf(lines, j) >= 0.0
  {
    if lines == [] {
    } else {
      VerdictsNonNegative(lines[1..], j);
    }
  }

  /** Each line names an item of the receipt. */
  predicate NameItems(lines: seq<QcLine>, items: seq<GrnItem>, receipt: nat) {
    forall i | 0 <= i < |lines| :: lines[i].item < |items| && items[lines[i].item].receipt == receipt
  }

  /** What the lines decide of an item lies on hold where it was put away. */
  predicate EnoughHeld(s: Stock, items: seq<GrnItem>, company: Id, lines: seq<QcLine>) {
    forall j: nat | j < |items| :: AcceptedOf(lines, j) + RejectedOf(lines, j) <= At(s, HeldAt(company, items[j]))
  }

  lemma RestHeld(s: Stock, t: Stock, items: seq<GrnItem>, batches: nat, company: Id, lines: seq<QcLine>)
    requires Agrees(s) && ReceivedApart(items, batches) && lines != [] && lines[0].item < |items|
    requires QcStock(s, OnHold(company, items[lines[0].item]), lines[0]) == Ok(t)
    ensures EnoughHeld(t, items, company, lines[1..]) <==> EnoughHeld(s, items, company, lines)
  {
    forall j: nat | j < |items|
      ensures AcceptedOf(lines[1..], j) + RejectedOf(lines[1..], j) <= At(t, HeldAt(company, items[j]))
              <==> AcceptedOf(lines, j) + RejectedOf(lines, j) <= At(s, HeldAt(company, items[j]))
    {
      HeldAfterLine(s, t, items, batches, company, lines[0], j);
    }
  }

  lemma HeldAfterLine(
      s: Stock, t: Stock, items: seq<GrnItem>, batches: nat, company: Id, line: QcLine, j: nat)
    requires Agrees(s) && ReceivedApart(items, batches) && line.item < |items| && j < |items|
    requires QcStock(s, OnHold(company, items[line.item]), line) == Ok(t)
    ensures At(t, HeldAt(company, items[j])) == At(s, HeldAt(company, items[j]))
            - (if line.item == j then Positive(line.accepted) + Positive(line.rejected) else 0.0)
  {
    var k := line.item;
    QcStockAt(s, company, items, line, HeldAt(company, items[j]));
    assert k != j ==> items[if k < j then k else j].lot.batch != items[if k < j then j else k].lot.batch;
  }

  lemma NamesRest(lines: seq<QcLine>, items: seq<GrnItem>, receipt: nat)
    requires lines != []
    ensures NameItems(lines, items, receipt)
            <==> NameItems(lines[..1], items, receipt) && NameItems(lines[1..], items, receipt)
  {
    assert forall i | 0 <= i < |lines[1..]| :: lines[1..][i] == lines[i + 1];
    assert forall i | 0 < i < |lines| :: lines[i] == lines[1..][i - 1];
  }

  lemma NothingDecided(s: Stock, items: seq<GrnItem>, company: Id)
    requires Agrees(s)
    ensures EnoughHeld(s, items, company, [])
  {
    forall j: nat | j < |items|
      ensures AcceptedOf([], j) + RejectedOf([], j) <= At(s, HeldAt(company, items[j]))
    {
      AtNonNegative(s, HeldAt(company, items[j]));
    }
  }

  lemma FirstHeld(s: Stock, items: seq<GrnItem>, company: Id, lines: seq<QcLine>)
    requires lines != [] && lines[0].item < |items| && EnoughHeld(s, items, company, lines)
    ensures Positive(lines[0].accepted) + Positive(lines[0].rejected) <= At(s, HeldAt(company, items[lines[0].item]))
  {
    VerdictsNonNegative(lines[1..], lines[0].item);
  }

  lemma QcLineExactlyWhen(db: Db, read: seq<GrnItem>, company: Id, receipt: nat, line: QcLine)
    requires Agrees(db.stock) && |read| == |db.grnItems|
    ensures var r := QcLineApplied(db, read, company, receipt, line);
            && (r.Ok? <==>
                  && line.item < |read| && read[line.item].receipt == receipt
                  && Positive(line.accepted) + Positive(line.rejected)
                     <= At(db.stock, HeldAt(company, read[line.item])))
            && (r.Ok? ==>
                  && Agrees(r.value.stock) && r.value.stock.batches == db.stock.batches
                  && QcStock(db.stock, OnHold(company, read[line.item]), line) == Ok(r.value.stock))
  {
    if line.item < |read| && read[line.item].receipt == receipt {
      var hold := OnHold(company, read[line.item]);
      QcStockExactlyWhen(db.stock, hold, line);
      if QcStock(db.stock, hold, line).Ok? {
        QcStockEffect(db.stock, hold, line);
      }
    }
  }

  lemma QcStepExactlyWhen(db: Db, read: seq<GrnItem>, company: Id, receipt: nat, lines: seq<QcLine>)
    requires Agrees(db.stock) && |read| == |db.grnItems| && ReceivedApart(read, |db.stock.batches|) && lines != []
    ensures var first := QcLineApplied(db, read, company, receipt, lines[0]);
            && (NameItems(lines, read, receipt) && EnoughHeld(db.stock, read, company, lines)
                <==> (&& first.Ok? && NameItems(lines[1..], read, receipt)
                      && EnoughHeld(first.value.stock, read, company, lines[1..])))
            && (first.Ok? ==> Agrees(first.value.stock) && first.value.stock.batches == db.stock.batches)
  {
    var first := QcLineApplied(db, read, company, receipt, lines[0]);
    QcLineExactlyWhen(db, read, company, receipt, lines[0]);
    NamesRest(lines, read, receipt);
    if first.Ok? {
      RestHeld(db.stock, first.value.stock, read, |db.stock.batches|, company, lines);
    } else if NameItems(lines, read, receipt) && EnoughHeld(db.stock, read, company, lines) {
      FirstHeld(db.stock, read, company, lines);
    }
  }

  lemma {:induction false} QcLinesExactlyWhen(
      db: Db, read: seq<GrnItem>, company: Id, receipt: nat, lines: seq<QcLine>)
    requires Agrees(db.stock) && |read| == |db.grnItems| && ReceivedApart(read, |db.stock.batches|)
    ensures QcLinesApplied(db, read, company, receipt, lines).Ok?
            <==> NameItems(lines, read, receipt) && EnoughHeld(db.stock, read, company, lines)
    decreases |lines|
  {
    if lines == [] {
      NothingDecided(db.stock, read, company);
    } else {
      var first := QcLineApplied(db, read, company, receipt, lines[0]);
      QcStepExactlyWhen(db, read, company, receipt, lines);
      if first.Ok? {
        QcLinesExactlyWhen(first.value, read, company, receipt, lines[1..]);
      }
    }
  }

  /** An inspection is accepted exactly when its receipt is the company's and under inspection,
      its lines name the receipt's items, and what they decide of each lies on hold. */
  lemma QcAppliedExactlyWhen(db: Db, company: Id, receipt: nat, lines: seq<QcLine>, policy: Policy)
    requires Core(db)
    ensures QcApplied(db, company, receipt, lines, policy).Ok? <==>
              && receipt < |db.receipts| && db.receipts[receipt].company == company
              && (db.receipts[receipt].status == PendingQc || db.receipts[receipt].status == PartialGrn)
              && NameItems(lines, db.grnItems, receipt)
              && EnoughHeld(db.stock, db.grnItems, company, lines)
  {
    QcLinesExactlyWhen(db, db.grnItems, company, receipt, lines);
  }

  // ----- what an inspection shows -----

  /** The last line on an item. */
  function LastLine(lines: seq<QcLine>, item: nat): Option<QcLine> {
    if lines == [] then None
    else if LastLine(lines[1..], item).Some? then LastLine(lines[1..], item)
    else if lines[0].item == item then Some(lines[0]) else None
  }

  /** The item as read before the inspection, with a line's amounts and verdict. */
  predicate Shows(before: GrnItem, line: QcLine, after: GrnItem) {
    && after == before.(accepted := after.accepted, rejected := after.rejected, qcStatus := after.qcStatus)
    && after.accepted == before.accepted + line.accepted
    && after.rejected == before.rejected + line.rejected
    && (after.qcStatus == QcHeld <==> line.verdict == VerdictHold)
    && (after.qcStatus == QcRejected <==> line.verdict == VerdictRejected)
    && (after.qcStatus == QcAccepted <==> line.verdict == VerdictAccepted || line.verdict == VerdictDeviation)
  }

  lemma {:induction false} QcLinesShow(
      db: Db, read: seq<GrnItem>, company: Id, receipt: nat, lines: seq<QcLine>, j: nat)
    requires SameGoods(read, db.grnItems) && QcLinesApplied(db, read, company, receipt, lines).Ok? && j < |read|
    ensures var t := QcLinesApplied(db, read, company, receipt, lines).value;
            && |t.grnItems| == |db.grnItems|
            && (LastLine(lines, j).None? ==> t.grnItems[j] == db.grnItems[j])
            && (LastLine(lines, j).Some? ==> Shows(read[j], LastLine(lines, j).value, t.grnItems[j]))
    decreases |lines|
  {
    if lines == [] {
    } else {
      var t := QcLineApplied(db, read, company, receipt, lines[0]).value;
      QcLinesShow(t, read, company, receipt, lines[1..], j);
    }
  }

  /** After an inspection an item's counters and status show what the last line on it says, on
      top of what they showed before; the receipt's status follows from the counters of its
      items, and nothing but stock, items and that receipt changes. */
  lemma QcAppliedShows(db: Db, company: Id, receipt: nat, lines: seq<QcLine>, policy: Policy, j: nat)
    requires QcApplied(db, company, receipt, lines, policy).Ok? && j < |db.grnItems|
    ensures var t := QcApplied(db, company, receipt, lines, policy).value;
            && |t.grnItems| == |db.grnItems|
            && (LastLine(lines, j).None? ==> t.grnItems[j] == db.grnItems[j])
            && (LastLine(lines, j).Some? ==> Shows(db.grnItems[j], LastLine(lines, j).value, t.grnItems[j]))
  {
    QcLinesShow(db, db.grnItems, company, receipt, lines, j);
  }

  lemma QcAppliedSettles(db: Db, company: Id, receipt: nat, lines: seq<QcLine>, policy: Policy)
    requires QcApplied(db, company, receipt, lines, policy).Ok?
    ensures var t := QcApplied(db, company, receipt, lines, policy).value;
            && receipt < |db.receipts| == |t.receipts|
            && t == db.(stock := t.stock, grnItems := t.grnItems,
                        receipts := db.receipts[receipt := t.receipts[receipt]])
            && ReceiptStands(t.grnItems, receipt, db.receipts[receipt], t.receipts[receipt],
                             policy.accountsHandoffEnabled)
  {
    QcLinesTouchItems(db, db.grnItems, company, receipt, lines);
  }

  /** A receipt's status by its items: pending while one awaits inspection, then by what was
      accepted and rejected of them. */
  predicate ReceiptStands(items: seq<GrnItem>, receipt: nat, before: Receipt, after: Receipt, handoff: bool) {
    var waiting := exists i | 0 <= i < |items| ::
        items[i].receipt == receipt && items[i].qcRequired && items[i].qcStatus == QcPending;
    var taken := exists i | 0 <= i < |items| :: items[i].receipt == receipt && items[i].accepted > 0.0;
    var refused := exists i | 0 <= i < |items| :: items[i].receipt == receipt && items[i].rejected > 0.0;
    && after == before.(status := after.status, readyForAccounts := after.readyForAccounts)
    && (after.status == PendingQc <==> waiting)
    && (after.status == PartialGrn <==> !waiting && taken && refused)
    && (after.status == Approved <==> !waiting && taken && !refused)
    && (after.status == RejectedGrn <==> !waiting && !taken && refused)
    && (after.status == Completed <==> !waiting && !taken && !refused)
    && (after.readyForAccounts <==> handoff && !waiting && taken)
  }

  // ----- purchase orders -----

  /** An order is placed exactly with a supplier of the company, for positive quantities of its
      materials; it is recorded as asked with nothing received. */
  lemma PlacedExactlyWhen(db: Db, company: Id, supplier: Id, open: bool, lines: seq<PoLine>)
    ensures var r := Placed(db, company, supplier, open, lines);
            var n := |db.poItems|;
            && (r.Ok? <==>
                  && lines != [] && supplier in db.masters.suppliers && db.masters.suppliers[supplier] == company
                  && forall i | 0 <= i < |lines| ::
                       && lines[i].ordered > 0.0 && lines[i].material in db.masters.materials
                       && db.masters.materials[lines[i].material].company == company)
            && (r.Ok? ==>
                  && r.value == db.(poItems := r.value.poItems, orders := db.orders
                       + [PurchaseOrder(company, supplier, if open then PoOpen else PoDraft)])
                  && |r.value.poItems| == n + |lines| && r.value.poItems[..n] == db.poItems
                  && forall i | 0 <= i < |lines| ::
                       r.value.poItems[n + i] == PoItem(|db.orders|, lines[i].material, lines[i].ordered, 0.0))
  {
  }
}
