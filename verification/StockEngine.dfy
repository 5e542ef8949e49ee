/** On-hand rows and the append-only ledger: the only writers of stock. */
module StockEngine {
  import opened Base
  import opened Tables
  import opened Sequences

  // ----- sums over the two tables -----

  /** Quantity on hand in the rows a query selects. */
  function OnHand(rows: seq<Row>, w: Where): real {
    if rows == [] then 0.0
    else
      var last := rows[|rows| - 1];
      OnHand(rows[..|rows| - 1], w) + (if w.Hits(last.key) then last.quantity else 0.0)
  }

  /** Net quantity the ledger records under the keys a query selects. */
  function Posted(ledger: seq<Entry>, w: Where): real {
    if ledger == [] then 0.0
    else
      var last := ledger[|ledger| - 1];
      Posted(ledger[..|ledger| - 1], w) + (if w.Hits(last.key) then last.quantity else 0.0)
  }

  // ----- queries -----

  /** Position, from `i` on, of the first row a query selects that holds at least
      the given quantity; |rows| when there is none. */
  function FindFrom(rows: seq<Row>, w: Where, least: Option<real>, i: nat): (found: nat)
    requires i <= |rows|
    ensures i <= found <= |rows|
    ensures found < |rows| ==> w.Hits(rows[found].key) && (least.Some? ==> rows[found].quantity >= least.value)
    ensures forall j | i <= j < found :: !w.Hits(rows[j].key) || (least.Some? && rows[j].quantity < least.value)
    decreases |rows| - i
  {
    if i == |rows| then i
    else if w.Hits(rows[i].key) && (least.None? || rows[i].quantity >= least.value) then i
    else FindFrom(rows, w, least, i + 1)
  }

  function Find(rows: seq<Row>, w: Where, least: Option<real>): nat {
    FindFrom(rows, w, least, 0)
  }

  // ----- the three postings -----

  /** The tables after a positive quantity is added under a key. */
  function Added(s: Stock, key: Key, quantity: real, kind: Kind): Result<Stock> {
    if quantity <= 0.0 then Err(QuantityNotPositive)
    else
      var i := Find(s.rows, Exactly(key), None);
      if i < |s.rows| then
        var balance := s.rows[i].quantity + quantity;
        Ok(s.(rows := s.rows[i := Row(s.rows[i].key, balance)],
              ledger := s.ledger + [Entry(key, kind, quantity, balance)]))
      else if key.lot.batch >= |s.batches| then Err(UnknownBatch)
      else
        Ok(s.(rows := s.rows + [Row(key, quantity)],
              ledger := s.ledger + [Entry(key, kind, quantity, quantity)]))
  }

  function Deducted(s: Stock, key: Key, quantity: real, kind: Kind): Result<Stock> {
    if quantity <= 0.0 then Err(QuantityNotPositive)
    else
      var i := Find(s.rows, Exactly(key), None);
      if i == |s.rows| || s.rows[i].quantity < quantity then Err(InsufficientStock)
      else
        var balance := s.rows[i].quantity - quantity;
        Ok(s.(rows := s.rows[i := Row(s.rows[i].key, balance)],
              ledger := s.ledger + [Entry(key, kind, -quantity, balance)]))
  }

  /** A move keeps the lot and changes place or status. */
  function Moved(s: Stock, from: Key, to: Key, quantity: real, outKind: Kind, inKind: Kind): Result<Stock> {
    var taken :- Deducted(s, from, quantity, outKind);
    Added(taken, to, quantity, inKind)
  }

  /** Services post some quantities only when there is something to post. */
  function AddedIfPositive(s: Stock, key: Key, quantity: real, kind: Kind): Result<Stock> {
    if quantity > 0.0 then Added(s, key, quantity, kind) else Ok(s)
  }

  function MovedIfPositive(s: Stock, from: Key, to: Key, quantity: real, outKind: Kind, inKind: Kind): Result<Stock> {
    if quantity > 0.0 then Moved(s, from, to, quantity, outKind, inKind) else Ok(s)
  }

  method Add(db: Database, key: Key, quantity: real, kind: Kind) returns (r: Result<real>)
    modifies db
    ensures match Added(old(db.State()).stock, key, quantity, kind)
            case Ok(s) =>
              && db.State() == old(db.State()).(stock := s)
              && r == Ok(s.ledger[|s.ledger| - 1].balanceAfter)
            case Err(e) => r == Err(e) && db.State() == old(db.State())
  {
    if quantity <= 0.0 {
      return Err(QuantityNotPositive);
    }
    var i := Find(db.rows, Exactly(key), None);
    var balanceAfter: real;
    if i < |db.rows| {
      balanceAfter := db.rows[i].quantity + quantity;
      db.rows := db.rows[i := Row(db.rows[i].key, balanceAfter)];
    } else {
      if key.lot.batch >= |db.batches| {
        return Err(UnknownBatch);
      }
      balanceAfter := quantity;
      db.rows := db.rows + [Row(key, quantity)];
    }
    db.ledger := db.ledger + [Entry(key, kind, quantity, balanceAfter)];
    return Ok(balanceAfter);
  }

  method Deduct(db: Database, key: Key, quantity: real, kind: Kind) returns (r: Result<real>)
    modifies db
    ensures match Deducted(old(db.State()).stock, key, quantity, kind)
            case Ok(s) =>
              && db.State() == old(db.State()).(stock := s)
              && r == Ok(s.ledger[|s.ledger| - 1].balanceAfter)
            case Err(e) => r == Err(e) && db.State() == old(db.State())
  {
    if quantity <= 0.0 {
      return Err(QuantityNotPositive);
    }
    var i := Find(db.rows, Exactly(key), None);
    if i == |db.rows| || db.rows[i].quantity < quantity {
      return Err(InsufficientStock);
    }
    var balanceAfter := db.rows[i].quantity - quantity;
    db.rows := db.rows[i := Row(db.rows[i].key, balanceAfter)];
    db.ledger := db.ledger + [Entry(key, kind, -quantity, balanceAfter)];
    return Ok(balanceAfter);
  }

  /** Sequences the two postings inside the caller's transaction: when the second
      one throws, the first is undone by the caller's rollback. */
  method Move(db: Database, from: Key, to: Key, quantity: real, outKind: Kind, inKind: Kind) returns (r: Result<()>)
    modifies db
    ensures match Moved(old(db.State()).stock, from, to, quantity, outKind, inKind)
            case Ok(s) => r.Ok? && db.State() == old(db.State()).(stock := s)
            case Err(e) => r == Err(e) && exists s :: db.State() == old(db.State()).(stock := s)
  {
    assert db.State() == old(db.State()).(stock := old(db.State()).stock);
    var _ :- Deduct(db, from, quantity, outKind);
    var _ :- Add(db, to, quantity, inKind);
    return Ok(());
  }

  method GetQty(db: Database, key: Key) returns (quantity: real)
    requires DistinctKeys(db.rows)
    ensures quantity == OnHand(db.rows, Exactly(key))
  {
    var i := Find(db.rows, Exactly(key), None);
    RowHoldsKey(db.rows, key);
    quantity := if i < |db.rows| then db.rows[i].quantity else 0.0;
  }

  // ----- what the postings keep -----

  ghost predicate DistinctKeys(rows: seq<Row>) {
    forall i, j | 0 <= i < j < |rows| :: rows[i].key != rows[j].key
  }

  ghost predicate Sound(rows: seq<Row>, batches: nat) {
    forall i | 0 <= i < |rows| :: rows[i].quantity >= 0.0 && rows[i].key.lot.batch < batches
  }

  /** Each entry's balance is the net quantity posted under its key so far. */
  ghost predicate RunningBalances(ledger: seq<Entry>) {
    ledger == []
    || (var last := ledger[|ledger| - 1];
        RunningBalances(ledger[..|ledger| - 1]) && last.balanceAfter == Posted(ledger, Exactly(last.key)))
  }

  ghost predicate SameSums(rows: seq<Row>, ledger: seq<Entry>) {
    forall w: Where :: OnHand(rows, w) == Posted(ledger, w)
  }

  /** Ledger agreement: one non-negative row per key, each query sums to the same
      quantity in both tables, and each entry shows its key's running balance. */
  ghost predicate Agrees(s: Stock) {
    && DistinctKeys(s.rows)
    && Sound(s.rows, |s.batches|)
    && SameSums(s.rows, s.ledger)
    && RunningBalances(s.ledger)
  }

  lemma {:induction false} OnHandSplit(a: seq<Row>, b: seq<Row>, w: Where)
    ensures OnHand(a + b, w) == OnHand(a, w) + OnHand(b, w)
  {
    if b == [] {
      assert a + b == a;
    } else {
      OnHandSplit(a, b[..|b| - 1], w);
      assert (a + b)[..|a + b| - 1] == a + b[..|b| - 1];
    }
  }

  lemma OnHandUpdate(rows: seq<Row>, i: nat, quantity: real, w: Where)
    requires i < |rows|
    ensures OnHand(rows[i := Row(rows[i].key, quantity)], w)
         == OnHand(rows, w) + (if w.Hits(rows[i].key) then quantity - rows[i].quantity else 0.0)
  {
    var r := Row(rows[i].key, quantity);
    assert rows == rows[..i] + ([rows[i]] + rows[i + 1..]);
    assert rows[i := r] == rows[..i] + ([r] + rows[i + 1..]);
    OnHandSplit(rows[..i], [rows[i]] + rows[i + 1..], w);
    OnHandSplit(rows[..i], [r] + rows[i + 1..], w);
    OnHandSplit([rows[i]], rows[i + 1..], w);
    OnHandSplit([r], rows[i + 1..], w);
  }

  /** Rows no query selects weigh nothing in it. */
  lemma {:induction false} OnHandNone(rows: seq<Row>, w: Where)
    requires forall i | 0 <= i < |rows| :: !w.Hits(rows[i].key)
    ensures OnHand(rows, w) == 0.0
  {
    if rows == [] {
    } else {
      OnHandNone(rows[..|rows| - 1], w);
    }
  }

  /** A query that selects one row sums to that row's quantity. */
  lemma {:induction false} OnHandSingle(rows: seq<Row>, i: nat, w: Where)
    requires i < |rows| && forall j | 0 <= j < |rows| :: w.Hits(rows[j].key) <==> j == i
    ensures OnHand(rows, w) == rows[i].quantity
  {
    var n := |rows| - 1;
    if i == n {
      OnHandNone(rows[..n], w);
    } else {
      OnHandSingle(rows[..n], i, w);
    }
  }

  /** With distinct keys, a key's sum is its row's quantity. */
  lemma RowHoldsKey(rows: seq<Row>, key: Key)
    requires DistinctKeys(rows)
    ensures var i := Find(rows, Exactly(key), None);
            && OnHand(rows, Exactly(key)) == (if i < |rows| then rows[i].quantity else 0.0)
            && (i < |rows| ==> rows[i].key == key)
            && (i == |rows| ==> forall j | 0 <= j < |rows| :: rows[j].key != key)
  {
    var w := Exactly(key);
    var i := Find(rows, w, None);
    forall j | 0 <= j < |rows|
      ensures w.Hits(rows[j].key) <==> rows[j].key == key
    {
    }
    if i < |rows| {
      OnHandSingle(rows, i, w);
    } else {
      OnHandNone(rows, w);
    }
  }

  /** Any entry, not only the last: its balance is the running sum up to it. */
  lemma {:induction false} BalanceAt(ledger: seq<Entry>, i: nat)
    requires RunningBalances(ledger) && i < |ledger|
    ensures ledger[i].balanceAfter == Posted(ledger[..i + 1], Exactly(ledger[i].key))
  {
    var n := |ledger| - 1;
    if i == n {
      assert ledger[..i + 1] == ledger;
    } else {
      BalanceAt(ledger[..n], i);
      assert ledger[..n][..i + 1] == ledger[..i + 1];
    }
  }

  /** How one posting changes every sum over the rows. */
  ghost predicate Shifts(before: seq<Row>, after: seq<Row>, key: Key, delta: real) {
    forall w: Where :: OnHand(after, w) == OnHand(before, w) + (if w.Hits(key) then delta else 0.0)
  }

  lemma AddedShifts(s: Stock, key: Key, quantity: real, kind: Kind, w: Where)
    requires DistinctKeys(s.rows) && Added(s, key, quantity, kind).Ok?
    ensures OnHand(Added(s, key, quantity, kind).value.rows, w)
              == OnHand(s.rows, w) + (if w.Hits(key) then quantity else 0.0)
  {
    var i := Find(s.rows, Exactly(key), None);
    RowHoldsKey(s.rows, key);
    if i < |s.rows| {
      OnHandUpdate(s.rows, i, s.rows[i].quantity + quantity, w);
    } else {
      OnHandSplit(s.rows, [Row(key, quantity)], w);
    }
  }

  lemma AddedRows(s: Stock, key: Key, quantity: real, kind: Kind)
    requires DistinctKeys(s.rows) && Sound(s.rows, |s.batches|) && Added(s, key, quantity, kind).Ok?
    ensures var t := Added(s, key, quantity, kind).value;
            DistinctKeys(t.rows) && Sound(t.rows, |s.batches|)
  {
    RowHoldsKey(s.rows, key);
  }

  lemma AddedAgrees(s: Stock, key: Key, quantity: real, kind: Kind)
    requires Agrees(s) && Added(s, key, quantity, kind).Ok?
    ensures var t := Added(s, key, quantity, kind).value;
            Agrees(t) && t.batches == s.batches && Shifts(s.rows, t.rows, key, quantity)
  {
    var t := Added(s, key, quantity, kind).value;
    RowHoldsKey(s.rows, key);
    AddedRows(s, key, quantity, kind);
    forall w: Where
      ensures OnHand(t.rows, w) == OnHand(s.rows, w) + (if w.Hits(key) then quantity else 0.0)
    {
      AddedShifts(s, key, quantity, kind, w);
    }
  }

  lemma DeductedShifts(s: Stock, key: Key, quantity: real, kind: Kind, w: Where)
    requires DistinctKeys(s.rows) && Deducted(s, key, quantity, kind).Ok?
    ensures OnHand(Deducted(s, key, quantity, kind).value.rows, w)
              == OnHand(s.rows, w) + (if w.Hits(key) then -quantity else 0.0)
  {
    var i := Find(s.rows, Exactly(key), None);
    RowHoldsKey(s.rows, key);
    OnHandUpdate(s.rows, i, s.rows[i].quantity - quantity, w);
  }

  lemma DeductedAgrees(s: Stock, key: Key, quantity: real, kind: Kind)
    requires Agrees(s) && Deducted(s, key, quantity, kind).Ok?
    ensures var t := Deducted(s, key, quantity, kind).value;
            Agrees(t) && t.batches == s.batches && Shifts(s.rows, t.rows, key, -quantity)
  {
    var t := Deducted(s, key, quantity, kind).value;
    RowHoldsKey(s.rows, key);
    forall w: Where
      ensures OnHand(t.rows, w) == OnHand(s.rows, w) + (if w.Hits(key) then -quantity else 0.0)
    {
      DeductedShifts(s, key, quantity, kind, w);
    }
  }

  /** Two opposite shifts, also when source and target are the same key. */
  ghost predicate Transfers(before: seq<Row>, after: seq<Row>, from: Key, to: Key, quantity: real) {
    forall w: Where ::
      OnHand(after, w) == OnHand(before, w) - (if w.Hits(from) then quantity else 0.0)
          + (if w.Hits(to) then quantity else 0.0)
  }

  lemma MovedAgrees(s: Stock, from: Key, to: Key, quantity: real, outKind: Kind, inKind: Kind)
    requires Agrees(s) && Moved(s, from, to, quantity, outKind, inKind).Ok?
    ensures var t := Moved(s, from, to, quantity, outKind, inKind).value;
            Agrees(t) && t.batches == s.batches && Transfers(s.rows, t.rows, from, to, quantity)
  {
    var u := Deducted(s, from, quantity, outKind).value;
    DeductedAgrees(s, from, quantity, outKind);
    AddedAgrees(u, to, quantity, inKind);
  }

  // ----- the order of rows -----

  lemma DistinctUnderOrder(rows: seq<Row>, ordered: seq<Row>)
    requires DistinctKeys(rows) && multiset(ordered) == multiset(rows)
    ensures DistinctKeys(ordered)
  {
    DifferInAnyOrder(rows, ordered);
    SameElements(rows, ordered);
    forall i, j | 0 <= i < j < |ordered|
      ensures ordered[i].key != ordered[j].key
    {
      assert ordered[i] in ordered && ordered[j] in ordered;
    }
  }

  /** Taking one row out lowers a sum by that row's part and the multiset by it. */
  lemma OnHandRemove(rows: seq<Row>, j: nat, w: Where)
    requires j < |rows|
    ensures OnHand(rows, w)
              == OnHand(rows[..j] + rows[j + 1..], w) + (if w.Hits(rows[j].key) then rows[j].quantity else 0.0)
    ensures multiset(rows[..j] + rows[j + 1..]) == multiset(rows) - multiset{rows[j]}
  {
    assert rows == rows[..j] + ([rows[j]] + rows[j + 1..]);
    OnHandSplit(rows[..j], [rows[j]] + rows[j + 1..], w);
    OnHandSplit([rows[j]], rows[j + 1..], w);
    OnHandSplit(rows[..j], rows[j + 1..], w);
  }

  /** Sums do not depend on the order rows are stored in. */
  lemma {:induction false} OnHandPermutes(a: seq<Row>, b: seq<Row>, w: Where)
    requires multiset(a) == multiset(b)
    ensures OnHand(a, w) == OnHand(b, w)
  {
    if a == [] {
      assert |multiset(b)| == 0;
    } else {
      var n := |a| - 1;
      assert a[n] in multiset(b);
      var j :| 0 <= j < |b| && b[j] == a[n];
      OnHandRemove(a, n, w);
      OnHandRemove(b, j, w);
      OnHandPermutes(a[..n] + a[n + 1..], b[..j] + b[j + 1..], w);
    }
  }

  /** A company's stock in a status, as the aggregate counts it: over positive rows. */
  function SumByStatus(rows: seq<Row>, company: Id, status: Status): real {
    if rows == [] then 0.0
    else
      var last := rows[|rows| - 1];
      SumByStatus(rows[..|rows| - 1], company, status)
      + (if last.key.lot.company == company && last.key.status == status && last.quantity > 0.0 then last.quantity
         else 0.0)
  }

  function InStatusOf(company: Id, status: Status): Where {
    Where(Some(company), None, None, None, None, Some(status))
  }

  lemma {:induction false} SumIsOnHand(rows: seq<Row>, batches: nat, company: Id, status: Status)
    requires Sound(rows, batches)
    ensures SumByStatus(rows, company, status) == OnHand(rows, InStatusOf(company, status))
  {
    if rows == [] {
    } else {
      SumIsOnHand(rows[..|rows| - 1], batches, company, status);
    }
  }

  /** In whatever order rows are stored, the aggregate is the net quantity the ledger posted
      in the status, and never negative. */
  lemma SumByStatusAgrees(s: Stock, rows: seq<Row>, company: Id, status: Status)
    requires Agrees(s) && multiset(rows) == multiset(s.rows)
    ensures SumByStatus(rows, company, status) == Posted(s.ledger, InStatusOf(company, status)) >= 0.0
  {
    ReorderAgrees(s, rows);
    SumIsOnHand(rows, |s.batches|, company, status);
    SumNonNegative(rows, company, status);
  }

  lemma {:induction false} SumNonNegative(rows: seq<Row>, company: Id, status: Status)
    ensures SumByStatus(rows, company, status) >= 0.0
  {
    if rows == [] {
    } else {
      SumNonNegative(rows[..|rows| - 1], company, status);
    }
  }

  lemma ReorderAgrees(s: Stock, rows: seq<Row>)
    requires Agrees(s) && multiset(rows) == multiset(s.rows)
    ensures Agrees(s.(rows := rows))
    ensures forall w: Where :: OnHand(rows, w) == OnHand(s.rows, w)
  {
    forall w: Where
      ensures OnHand(rows, w) == OnHand(s.rows, w)
    {
      OnHandPermutes(s.rows, rows, w);
    }
    DistinctUnderOrder(s.rows, rows);
    forall i | 0 <= i < |rows|
      ensures rows[i].quantity >= 0.0 && rows[i].key.lot.batch < |s.batches|
    {
      assert rows[i] in multiset(s.rows);
    }
  }

  // ----- when postings succeed, and what they record -----

  /** What lies under a key: one lot in one place and status. */
  function At(s: Stock, key: Key): real {
    OnHand(s.rows, Exactly(key))
  }

  /** A posting changes what lies under its own key and under no other. */
  lemma ShiftAt(before: Stock, after: Stock, posted: Key, delta: real, key: Key)
    requires Shifts(before.rows, after.rows, posted, delta)
    ensures At(after, key) == At(before, key) + (if key == posted then delta else 0.0)
  {
    assert Exactly(key).Hits(posted) <==> key == posted;
  }

  lemma TransferAt(before: Stock, after: Stock, from: Key, to: Key, quantity: real, key: Key)
    requires Transfers(before.rows, after.rows, from, to, quantity)
    ensures At(after, key)
         == At(before, key) - (if key == from then quantity else 0.0) + (if key == to then quantity else 0.0)
  {
    assert Exactly(key).Hits(from) <==> key == from;
    assert Exactly(key).Hits(to) <==> key == to;
  }

  /** Adding succeeds exactly for a positive quantity of a known batch, and is recorded
      with the new balance. */
  lemma AddedExactlyWhen(s: Stock, key: Key, quantity: real, kind: Kind)
    requires Agrees(s)
    ensures var r := Added(s, key, quantity, kind);
            && (r.Ok? <==> quantity > 0.0 && key.lot.batch < |s.batches|)
            && (r.Ok? ==> r.value.ledger == s.ledger + [Entry(key, kind, quantity, At(s, key) + quantity)])
  {
    RowHoldsKey(s.rows, key);
  }

  /** Deducting succeeds exactly for a positive quantity no larger than what lies there. */
  lemma DeductedExactlyWhen(s: Stock, key: Key, quantity: real, kind: Kind)
    requires Agrees(s)
    ensures var r := Deducted(s, key, quantity, kind);
            && (r.Ok? <==> 0.0 < quantity <= At(s, key))
            && (r.Ok? ==> r.value.ledger == s.ledger + [Entry(key, kind, -quantity, At(s, key) - quantity)])
  {
    RowHoldsKey(s.rows, key);
  }

  /** A move succeeds exactly when the quantity is positive and lies at the source and the
      target's batch is known; it is recorded once for each side. */
  lemma MovedExactlyWhen(s: Stock, from: Key, to: Key, quantity: real, outKind: Kind, inKind: Kind)
    requires Agrees(s)
    ensures var r := Moved(s, from, to, quantity, outKind, inKind);
            && (r.Ok? <==> 0.0 < quantity <= At(s, from) && to.lot.batch < |s.batches|)
            && (r.Ok? ==>
                  r.value.ledger == s.ledger + [Entry(from, outKind, -quantity, At(s, from) - quantity),
                                                Entry(to, inKind, quantity, At(r.value, to))])
  {
    DeductedExactlyWhen(s, from, quantity, outKind);
    if Deducted(s, from, quantity, outKind).Ok? {
      var u := Deducted(s, from, quantity, outKind).value;
      DeductedAgrees(s, from, quantity, outKind);
      AddedExactlyWhen(u, to, quantity, inKind);
      if Added(u, to, quantity, inKind).Ok? {
        AddedBalance(u, to, quantity, inKind);
        Regroup(s.ledger, [Entry(from, outKind, -quantity, At(s, from) - quantity)],
            [Entry(to, inKind, quantity, At(u, to) + quantity)]);
      }
    }
  }

  lemma AddedBalance(s: Stock, key: Key, quantity: real, kind: Kind)
    requires Agrees(s) && Added(s, key, quantity, kind).Ok?
    ensures At(Added(s, key, quantity, kind).value, key) == At(s, key) + quantity
  {
    AddedAgrees(s, key, quantity, kind);
    ShiftAt(s, Added(s, key, quantity, kind).value, key, quantity, key);
  }

  lemma AtNonNegative(s: Stock, key: Key)
    requires Agrees(s)
    ensures At(s, key) >= 0.0
  {
    RowHoldsKey(s.rows, key);
  }
}
