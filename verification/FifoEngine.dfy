/** Which batches to take first, and how much of each. */
module FifoEngine {
  import opened Base
  import opened Sorting
  import opened Tables
  import opened StockEngine

  /** One suggested withdrawal: the row as it stands and the quantity to take. */
  datatype Pick = Pick(row: Row, quantity: real)

  datatype Suggestion = Suggestion(picks: seq<Pick>, shortfall: real, fullyCovered: bool)

  // ----- the order -----

  function BatchOf(batches: seq<Batch>, b: nat): Batch {
    if b < |batches| then batches[b] else Batch(0, 0, 0, 0, None)
  }

  /** Earliest expiry first, batches without one last, ties by arrival. */
  predicate ExpiresBefore(a: Batch, b: Batch) {
    match (a.expiryDate, b.expiryDate)
    case (Some(x), Some(y)) => x < y || (x == y && a.receivedAt <= b.receivedAt)
    case (Some(_), None) => true
    case (None, Some(_)) => false
    case (None, None) => a.receivedAt <= b.receivedAt
  }

  /** Earliest arrival first, ties by batch number. */
  predicate ArrivesBefore(a: Batch, b: Batch) {
    a.receivedAt < b.receivedAt || (a.receivedAt == b.receivedAt && a.number <= b.number)
  }

  function Older(batches: seq<Batch>, fefo: bool): (Row, Row) -> bool {
    (a: Row, b: Row) =>
      var x := BatchOf(batches, a.key.lot.batch);
      var y := BatchOf(batches, b.key.lot.batch);
      if fefo then ExpiresBefore(x, y) else ArrivesBefore(x, y)
  }

  // ----- the rows considered -----

  /** The rows a query selects that hold something. */
  function Holding(rows: seq<Row>, w: Where): seq<Row> {
    if rows == [] then []
    else
      var last := rows[|rows| - 1];
      Holding(rows[..|rows| - 1], w) + (if w.Hits(last.key) && last.quantity > 0.0 then [last] else [])
  }

  function StockOf(company: Id, material: Id, warehouse: Option<Id>, status: Status): Where {
    Where(Some(company), Some(material), None, warehouse, None, Some(status))
  }

  /** The positive rows of a query, oldest first. */
  function Shelf(s: Stock, fefo: bool, w: Where): seq<Row> {
    OrderBy(Holding(s.rows, w), Older(s.batches, fefo))
  }

  /** FEFO applies when the company enables it and the material has a shelf life. */
  predicate UsesFefo(masters: Masters, company: Id, material: Id, fefoEnabled: bool) {
    && fefoEnabled
    && material in masters.materials
    && masters.materials[material].company == company
    && masters.materials[material].shelfLifeDays.Some?
  }

  // ----- the greedy picks -----

  function Picks(rows: seq<Row>, remaining: real): seq<Pick> {
    if rows == [] || remaining <= 0.0 then []
    else
      var take := Min(rows[0].quantity, remaining);
      [Pick(rows[0], take)] + Picks(rows[1..], remaining - take)
  }

  function Left(rows: seq<Row>, remaining: real): real {
    if rows == [] || remaining <= 0.0 then remaining
    else Left(rows[1..], remaining - Min(rows[0].quantity, remaining))
  }

  function Suggested(rows: seq<Row>, quantity: real): Suggestion {
    var left := Left(rows, quantity);
    Suggestion(Picks(rows, quantity), (if left > 0.0 then left else 0.0), left <= 0.0)
  }

  function Suggest(
      db: Db, company: Id, material: Id, quantity: real, warehouse: Option<Id>, status: Status,
      fefoEnabled: bool): Suggestion
  {
    Suggested(Shelf(db.stock, UsesFefo(db.masters, company, material, fefoEnabled),
        StockOf(company, material, warehouse, status)), quantity)
  }

  lemma Prepend(picks: seq<Pick>, pick: Pick, rest: seq<Pick>)
    ensures picks + ([pick] + rest) == (picks + [pick]) + rest
  {
  }

  method SuggestBatches(
      db: Database, company: Id, material: Id, quantity: real, warehouse: Option<Id>, status: Status, fefoEnabled: bool)
    returns (suggestion: Suggestion)
    ensures suggestion == Suggest(db.State(), company, material, quantity, warehouse, status, fefoEnabled)
  {
    var useFefo := UsesFefo(db.masters, company, material, fefoEnabled);
    var stocks := Shelf(db.State().stock, useFefo, StockOf(company, material, warehouse, status));
    var picks: seq<Pick> := [];
    var remaining := quantity;
    var i := 0;
    while i < |stocks| && remaining > 0.0
      invariant 0 <= i <= |stocks|
      invariant picks + Picks(stocks[i..], remaining) == Picks(stocks, quantity)
      invariant Left(stocks[i..], remaining) == Left(stocks, quantity)
    {
      var take := Min(stocks[i].quantity, remaining);
      var pick := Pick(stocks[i], take);
      assert stocks[i..][1..] == stocks[i + 1..];
      Prepend(picks, pick, Picks(stocks[i + 1..], remaining - take));
      picks := picks + [pick];
      remaining := remaining - take;
      i := i + 1;
    }
    return Suggestion(picks, if remaining > 0.0 then remaining else 0.0, remaining <= 0.0);
  }

  /** The batch a FIFO check expects, if any. */
  function Head(s: Suggestion): Option<nat> {
    if s.picks == [] then None else Some(s.picks[0].row.key.lot.batch)
  }

  /** Any batch complies when none is expected. */
  predicate IsCompliant(expected: Option<nat>, chosen: nat) {
    expected.None? || expected.value == chosen
  }

  // ----- sums -----

  function Sum(a: seq<real>): real {
    if a == [] then 0.0 else Sum(a[..|a| - 1]) + a[|a| - 1]
  }

  function Total(rows: seq<Row>): real {
    if rows == [] then 0.0 else rows[0].quantity + Total(rows[1..])
  }

  function Picked(picks: seq<Pick>): real {
    if picks == [] then 0.0 else picks[0].quantity + Picked(picks[1..])
  }

  ghost predicate Positive(rows: seq<Row>) {
    forall i | 0 <= i < |rows| :: rows[i].quantity > 0.0
  }

  lemma {:induction false} TotalSplit(a: seq<Row>, b: seq<Row>)
    ensures Total(a + b) == Total(a) + Total(b)
  {
    if a == [] {
      assert a + b == b;
    } else {
      TotalSplit(a[1..], b);
      assert (a + b)[1..] == a[1..] + b;
    }
  }

  lemma {:induction false} TotalMonotone(rows: seq<Row>, j: nat, k: nat)
    requires Positive(rows) && j <= k <= |rows|
    ensures 0.0 <= Total(rows[..j]) <= Total(rows[..k])
  {
    if k == 0 {
    } else {
      assert rows[..k] == rows[..k - 1] + [rows[k - 1]];
      TotalSplit(rows[..k - 1], [rows[k - 1]]);
      TotalMonotone(rows, if j < k then j else k - 1, k - 1);
    }
  }

  /** The picks take from a prefix of the rows, row by row, and together take
      what is asked for as far as the rows reach. */
  lemma {:induction false} PicksTakeMinimum(rows: seq<Row>, quantity: real)
    requires Positive(rows) && quantity >= 0.0
    ensures Picked(Picks(rows, quantity)) == Min(quantity, Total(rows))
    ensures Left(rows, quantity) == quantity - Min(quantity, Total(rows))
    ensures |Picks(rows, quantity)| <= |rows|
    ensures forall i | 0 <= i < |Picks(rows, quantity)| ::
              && Picks(rows, quantity)[i].row == rows[i]
              && 0.0 < Picks(rows, quantity)[i].quantity <= rows[i].quantity
  {
    if rows == [] {
    } else {
      TotalMonotone(rows[1..], 0, |rows| - 1);
      assert rows[1..][..|rows| - 1] == rows[1..];
      if quantity > 0.0 {
        PicksTakeMinimum(rows[1..], quantity - Min(rows[0].quantity, quantity));
      }
    }
  }

  /** Every pick but the last empties its row. */
  lemma {:induction false} PicksEmptyRows(rows: seq<Row>, quantity: real, i: nat)
    requires Positive(rows) && i + 1 < |Picks(rows, quantity)|
    ensures Picks(rows, quantity)[i].quantity == Picks(rows, quantity)[i].row.quantity
  {
    if i == 0 {
    } else {
      PicksEmptyRows(rows[1..], quantity - Min(rows[0].quantity, quantity), i - 1);
    }
  }

  /** What a suggestion promises: it is fully covered exactly when the rows hold
      enough, and the shortfall is what is missing. */
  lemma SuggestionCovers(rows: seq<Row>, quantity: real)
    requires Positive(rows) && quantity >= 0.0
    ensures var s := Suggested(rows, quantity);
            && (s.fullyCovered <==> quantity <= Total(rows))
            && Picked(s.picks) + s.shortfall == quantity
            && s.shortfall == Max(0.0, quantity - Total(rows))
  {
    PicksTakeMinimum(rows, quantity);
  }

  lemma {:induction false} PicksOfPrefix(rows: seq<Row>, quantity: real, k: nat)
    requires Positive(rows) && quantity >= 0.0 && k <= |rows|
    ensures var n := |Picks(rows, quantity)|;
            Picks(rows[..k], quantity) == Picks(rows, quantity)[..if k <= n then k else n]
  {
    if k == 0 || quantity <= 0.0 {
    } else {
      assert rows[..k][1..] == rows[1..][..k - 1];
      PicksOfPrefix(rows[1..], quantity - Min(rows[0].quantity, quantity), k - 1);
    }
  }

  // ----- optimality -----

  /** What each ordered row gives under the picks. */
  function Taken(rows: seq<Row>, quantity: real): seq<real> {
    var picks := Picks(rows, quantity);
    seq(|rows|, i requires 0 <= i < |rows| => if i < |picks| then picks[i].quantity else 0.0)
  }

  /** Any other way to take the same quantity from the same rows. */
  ghost predicate Feasible(rows: seq<Row>, alloc: seq<real>, quantity: real) {
    && |alloc| == |rows|
    && (forall i | 0 <= i < |rows| :: 0.0 <= alloc[i] <= rows[i].quantity)
    && Sum(alloc) == quantity
  }

  lemma {:induction false} SumOfPadded(picks: seq<Pick>, a: seq<real>)
    requires |picks| <= |a|
    requires forall i | 0 <= i < |a| :: a[i] == if i < |picks| then picks[i].quantity else 0.0
    ensures Sum(a) == Picked(picks)
    decreases |a|
  {
    if a == [] {
    } else if |picks| < |a| {
      SumOfPadded(picks, a[..|a| - 1]);
    } else {
      var n := |a| - 1;
      SumOfPadded(picks[..n], a[..n]);
      PickedAppend(picks[..n], picks[n]);
      assert picks == picks[..n] + [picks[n]];
    }
  }

  lemma {:induction false} PickedAppend(picks: seq<Pick>, p: Pick)
    ensures Picked(picks + [p]) == Picked(picks) + p.quantity
  {
    if picks == [] {
    } else {
      PickedAppend(picks[1..], p);
      assert (picks + [p])[1..] == picks[1..] + [p];
    }
  }

  lemma {:induction false} SumMonotone(a: seq<real>, k: nat)
    requires k <= |a| && forall i | 0 <= i < |a| :: 0.0 <= a[i]
    ensures Sum(a[..k]) <= Sum(a)
  {
    if k == |a| {
      assert a[..k] == a;
    } else {
      SumMonotone(a[..|a| - 1], k);
      assert a[..|a| - 1][..k] == a[..k];
    }
  }

  lemma {:induction false} SumBounded(rows: seq<Row>, a: seq<real>, k: nat)
    requires |a| == |rows| && k <= |a| && forall i | 0 <= i < |a| :: a[i] <= rows[i].quantity
    ensures Sum(a[..k]) <= Total(rows[..k])
  {
    if k == 0 {
    } else {
      SumBounded(rows, a, k - 1);
      assert a[..k][..k - 1] == a[..k - 1];
      assert rows[..k] == rows[..k - 1] + [rows[k - 1]];
      TotalSplit(rows[..k - 1], [rows[k - 1]]);
    }
  }

  ghost predicate Dominates(a: seq<real>, b: seq<real>) {
    |a| == |b| && forall k | 0 <= k <= |a| :: Sum(b[..k]) <= Sum(a[..k])
  }

  /** No other allocation of the same quantity takes more from the front: every
      prefix of the ordered rows gives at least as much under the picks. */
  lemma PicksDominate(rows: seq<Row>, quantity: real, alloc: seq<real>)
    requires Positive(rows) && quantity >= 0.0 && Feasible(rows, alloc, quantity)
    ensures Dominates(Taken(rows, quantity), alloc)
    ensures Sum(Taken(rows, quantity)) == quantity
  {
    var taken := Taken(rows, quantity);
    forall k | 0 <= k <= |rows|
      ensures Sum(alloc[..k]) <= Sum(taken[..k])
      ensures Sum(taken[..k]) == Min(quantity, Total(rows[..k]))
    {
      PicksTakeMinimum(rows, quantity);
      PicksTakeMinimum(rows[..k], quantity);
      PicksOfPrefix(rows, quantity, k);
      SumOfPadded(Picks(rows[..k], quantity), taken[..k]);
      SumMonotone(alloc, k);
      SumBounded(rows, alloc, k);
    }
    assert rows[..|rows|] == rows && taken[..|rows|] == taken && alloc[..|rows|] == alloc;
  }

  /** Total weight of the first n quantities. */
  function Weighted(w: seq<real>, a: seq<real>, n: nat): real
    requires n <= |w| && n <= |a|
  {
    if n == 0 then 0.0 else Weighted(w, a, n - 1) + w[n - 1] * a[n - 1]
  }

  lemma Spread(x: real, a: real, b: real)
    ensures x * (a - b) == x * a - x * b
  {
  }

  lemma Spread2(x: real, a: real, b: real)
    ensures x * (a + b) == x * a + x * b
  {
  }

  lemma Raise(x: real, y: real, d: real)
    requires y <= x && 0.0 <= d
    ensures y * d <= x * d
  {
    assert (x - y) * d >= 0.0;
    Spread(d, x, y);
  }

  /** One step of summation by parts. */
  lemma ByParts(x: real, y: real, wa: real, wb: real, d: real, a: real, b: real, total: real)
    requires y <= x && 0.0 <= d && wa - wb >= x * d && total == d + (a - b)
    ensures (wa + y * a) - (wb + y * b) >= y * total
  {
    Raise(x, y, d);
    Spread(y, a, b);
    Spread2(y, d, a - b);
    assert y * total == y * (d + (a - b));
  }

  /** Weights that never rise along the order favour the dominating allocation. */
  lemma {:induction false} WeightedDominance(w: seq<real>, a: seq<real>, b: seq<real>, n: nat)
    requires 0 < n <= |a| == |w| && Dominates(a, b)
    requires forall i, j | 0 <= i < j < |w| :: w[j] <= w[i]
    ensures Weighted(w, a, n) - Weighted(w, b, n) >= w[n - 1] * (Sum(a[..n]) - Sum(b[..n]))
  {
    var d := Sum(a[..n - 1]) - Sum(b[..n - 1]);
    assert a[..n][..n - 1] == a[..n - 1] && b[..n][..n - 1] == b[..n - 1];
    if n == 1 {
      ByParts(w[0], w[0], 0.0, 0.0, 0.0, a[0], b[0], Sum(a[..1]) - Sum(b[..1]));
    } else {
      WeightedDominance(w, a, b, n - 1);
      ByParts(w[n - 2], w[n - 1], Weighted(w, a, n - 1), Weighted(w, b, n - 1), d, a[n - 1], b[n - 1], Sum(a[..n])
          - Sum(b[..n]));
    }
  }

  /** The picks take the oldest stock there is: for every weight that never rises
      along the order (an age, say), no allocation of the same quantity weighs
      more in total. */
  lemma PicksMaximiseAge(rows: seq<Row>, quantity: real, alloc: seq<real>, age: seq<real>)
    requires Positive(rows) && quantity >= 0.0 && Feasible(rows, alloc, quantity)
    requires |age| == |rows| && forall i, j | 0 <= i < j < |age| :: age[j] <= age[i]
    ensures Weighted(age, alloc, |rows|) <= Weighted(age, Taken(rows, quantity), |rows|)
  {
    PicksDominate(rows, quantity, alloc);
    if rows != [] {
      WeightedDominance(age, Taken(rows, quantity), alloc, |rows|);
      assert Taken(rows, quantity)[..|rows|] == Taken(rows, quantity) && alloc[..|rows|] == alloc;
    }
  }

  /** No shorter prefix of the ordered rows can serve the same quantity. */
  lemma PicksTouchFewest(rows: seq<Row>, quantity: real, alloc: seq<real>, k: nat)
    requires Positive(rows) && quantity >= 0.0 && Feasible(rows, alloc, quantity)
    requires k <= |rows| && forall i | k <= i < |rows| :: alloc[i] == 0.0
    ensures |Picks(rows, quantity)| <= k
  {
    var picks := Picks(rows, quantity);
    PicksTakeMinimum(rows, quantity);
    if k < |picks| {
      assert picks[..k + 1] == picks[..k] + [picks[k]];
      PickedAppend(picks[..k], picks[k]);
      SumOfPrefix(alloc, k);
      SumBounded(rows, alloc, k);
      PicksOfPrefix(rows, quantity, k);
      PicksTakeMinimum(rows[..k], quantity);
      PicksOfPrefix(rows, quantity, k + 1);
      PicksTakeMinimum(rows[..k + 1], quantity);
    }
  }

  lemma {:induction false} SumOfPrefix(a: seq<real>, k: nat)
    requires k <= |a| && forall i | k <= i < |a| :: a[i] == 0.0
    ensures Sum(a) == Sum(a[..k])
  {
    if k == |a| {
      assert a[..k] == a;
    } else {
      SumOfPrefix(a[..|a| - 1], k);
      assert a[..|a| - 1][..k] == a[..k];
    }
  }

  // ----- from the table to the shelf -----

  lemma {:induction false} HoldingSelects(rows: seq<Row>, w: Where)
    ensures Positive(Holding(rows, w))
    ensures forall r :: r in Holding(rows, w) <==> r in rows && w.Hits(r.key) && r.quantity > 0.0
    ensures DistinctKeys(rows) ==> DistinctKeys(Holding(rows, w))
  {
    if rows == [] {
    } else {
      HoldingSelects(rows[..|rows| - 1], w);
      assert rows == rows[..|rows| - 1] + [rows[|rows| - 1]];
    }
  }

  /** The shelf is the selected positive rows, each once, oldest first. */
  lemma ShelfOrders(s: Stock, fefo: bool, w: Where)
    ensures var shelf := Shelf(s, fefo, w);
            && Positive(shelf)
            && Sorted(shelf, Older(s.batches, fefo))
            && (forall r :: r in shelf <==> r in s.rows && w.Hits(r.key) && r.quantity > 0.0)
            && multiset(shelf) == multiset(Holding(s.rows, w))
  {
    var holding := Holding(s.rows, w);
    var shelf := Shelf(s, fefo, w);
    OrderByOrders(holding, Older(s.batches, fefo));
    HoldingSelects(s.rows, w);
    forall r
      ensures r in shelf <==> r in holding
    {
      assert r in shelf <==> r in multiset(shelf);
      assert r in holding <==> r in multiset(holding);
    }
  }

  lemma {:induction false} HoldingKeepsOrder(rows: seq<Row>, w: Where, m: nat, n: nat) returns (i: nat, j: nat)
    requires m < n < |rows| && w.Hits(rows[m].key) && w.Hits(rows[n].key)
    requires rows[m].quantity > 0.0 && rows[n].quantity > 0.0
    ensures i < j < |Holding(rows, w)| && Holding(rows, w)[i] == rows[m] && Holding(rows, w)[j] == rows[n]
  {
    var last := |rows| - 1;
    var front := Holding(rows[..last], w);
    if n == last {
      HoldingSelects(rows[..last], w);
      assert rows[..last][m] in front;
      i :| 0 <= i < |front| && front[i] == rows[m];
      j := |front|;
    } else {
      i, j := HoldingKeepsOrder(rows[..last], w, m, n);
    }
  }

  /** Rows of one batch stand on the shelf as they stand in the table. */
  lemma ShelfKeepsOrder(s: Stock, fefo: bool, w: Where, m: nat, n: nat)
    requires m < n < |s.rows| && w.Hits(s.rows[m].key) && w.Hits(s.rows[n].key)
    requires s.rows[m].quantity > 0.0 && s.rows[n].quantity > 0.0
    requires s.rows[m].key.lot.batch == s.rows[n].key.lot.batch
    ensures Before(Shelf(s, fefo, w), s.rows[m], s.rows[n])
  {
    var i, j := HoldingKeepsOrder(s.rows, w, m, n);
    OrderByStable(Holding(s.rows, w), i, j, Older(s.batches, fefo));
  }

  ghost predicate OldestOf(s: Stock, fefo: bool, w: Where, r: Row) {
    && w.Hits(r.key) && r.quantity > 0.0
    && forall o | o in s.rows && w.Hits(o.key) && o.quantity > 0.0 :: Older(s.batches, fefo)(r, o)
  }

  /** The FIFO head is a batch that holds selected stock and no other selected
      stock is strictly older; there is no head exactly when nothing is on hand. */
  lemma HeadIsOldest(s: Stock, fefo: bool, w: Where, quantity: real)
    requires quantity > 0.0
    ensures var head := Head(Suggested(Shelf(s, fefo, w), quantity));
            && (head.None? <==> forall r | r in s.rows :: !(w.Hits(r.key) && r.quantity > 0.0))
            && (head.Some? ==> exists r | r in s.rows && r.key.lot.batch == head.value :: OldestOf(s, fefo, w, r))
  {
    ShelfOrders(s, fefo, w);
    var shelf := Shelf(s, fefo, w);
    if shelf != [] {
      var r := shelf[0];
      forall o | o in s.rows && w.Hits(o.key) && o.quantity > 0.0
        ensures Older(s.batches, fefo)(r, o)
      {
        assert o in shelf;
        var i :| 0 <= i < |shelf| && shelf[i] == o;
      }
      assert r in s.rows && OldestOf(s, fefo, w, r);
    }
  }

  /** A batch complies only when it is among the oldest or there is no stock at all, and it
      does whenever it is older than every other batch on hand. */
  lemma CompliantIsOldest(s: Stock, fefo: bool, w: Where, quantity: real, batch: nat)
    requires quantity > 0.0
    ensures IsCompliant(Head(Suggested(Shelf(s, fefo, w), quantity)), batch) ==>
              || (forall r | r in s.rows :: !(w.Hits(r.key) && r.quantity > 0.0))
              || (exists r | r in s.rows && r.key.lot.batch == batch :: OldestOf(s, fefo, w, r))
    ensures (exists r | r in s.rows && r.key.lot.batch == batch :: OldestOf(s, fefo, w, r))
            && (forall r, o | r in s.rows && o in s.rows && r.key.lot.batch == batch && o.key.lot.batch != batch ::
                  OldestOf(s, fefo, w, r) ==> !OldestOf(s, fefo, w, o))
            ==> IsCompliant(Head(Suggested(Shelf(s, fefo, w), quantity)), batch)
  {
    HeadIsOldest(s, fefo, w, quantity);
  }

  // ----- the order, by the batches' own fields -----

  /** First expired, first out: a dated batch before an undated one, an earlier date before a
      later, then earlier arrival. First in, first out: earlier arrival, then batch number. */
  predicate StrictlyOlder(a: Batch, b: Batch, fefo: bool) {
    if fefo then
      || (a.expiryDate.Some? && b.expiryDate.None?)
      || (a.expiryDate.Some? && b.expiryDate.Some? && a.expiryDate.value < b.expiryDate.value)
      || (a.expiryDate == b.expiryDate && a.receivedAt < b.receivedAt)
    else
      || a.receivedAt < b.receivedAt
      || (a.receivedAt == b.receivedAt && a.number < b.number)
  }

  lemma OlderIsNotYounger(a: Batch, b: Batch)
    ensures ExpiresBefore(a, b) ==> !StrictlyOlder(b, a, true)
    ensures ArrivesBefore(a, b) ==> !StrictlyOlder(b, a, false)
  {
  }

  /** In a sorted shelf no row is strictly older than one before it. */
  lemma SortedByFields(shelf: seq<Row>, batches: seq<Batch>, fefo: bool, i: nat, j: nat)
    requires Sorted(shelf, Older(batches, fefo)) && i <= j < |shelf|
    requires shelf[i].key.lot.batch < |batches| && shelf[j].key.lot.batch < |batches|
    ensures !StrictlyOlder(batches[shelf[j].key.lot.batch], batches[shelf[i].key.lot.batch], fefo)
  {
    if i < j {
      assert Older(batches, fefo)(shelf[i], shelf[j]);
      OlderIsNotYounger(batches[shelf[i].key.lot.batch], batches[shelf[j].key.lot.batch]);
    }
  }

  /** Of any two rows on the shelf the later one's batch is not strictly older. */
  lemma ShelfByFields(s: Stock, fefo: bool, w: Where, i: nat, j: nat)
    requires Agrees(s) && i <= j < |Shelf(s, fefo, w)|
    ensures var first, later := Shelf(s, fefo, w)[i].key.lot.batch, Shelf(s, fefo, w)[j].key.lot.batch;
            first < |s.batches| && later < |s.batches| && !StrictlyOlder(s.batches[later], s.batches[first], fefo)
  {
    var shelf := Shelf(s, fefo, w);
    ShelfOrders(s, fefo, w);
    assert shelf[i] in shelf && shelf[j] in shelf;
    SortedByFields(shelf, s.batches, fefo, i, j);
  }

  /** Stock a suggestion may take from. */
  predicate Selected(r: Row, company: Id, material: Id, warehouse: Option<Id>, status: Status) {
    && r.key.lot.company == company && r.key.lot.material == material && r.key.status == status
    && (warehouse.None? || r.key.warehouse == warehouse.value) && r.quantity > 0.0
  }

  /** A suggestion takes selected rows, oldest first: whatever is strictly older than a
      picked row was picked before it. Expiry counts only for companies that enable it and
      materials of theirs with a shelf life. */
  lemma SuggestsOldestFirst(
      db: Db, company: Id, material: Id, quantity: real, warehouse: Option<Id>, status: Status, fefoEnabled: bool,
      i: nat, r: Row)
    requires Agrees(db.stock) && r in db.stock.rows && Selected(r, company, material, warehouse, status)
    requires i < |Suggest(db, company, material, quantity, warehouse, status, fefoEnabled).picks|
    ensures var picks := Suggest(db, company, material, quantity, warehouse, status, fefoEnabled).picks;
            var fefo := fefoEnabled && material in db.masters.materials
              && db.masters.materials[material].company == company
              && db.masters.materials[material].shelfLifeDays.Some?;
            && picks[i].row in db.stock.rows && Selected(picks[i].row, company, material, warehouse, status)
            && r.key.lot.batch < |db.stock.batches| && picks[i].row.key.lot.batch < |db.stock.batches|
            && (StrictlyOlder(db.stock.batches[r.key.lot.batch], db.stock.batches[picks[i].row.key.lot.batch], fefo)
                ==> exists k | 0 <= k < i :: picks[k].row == r)
  {
    var fefo := UsesFefo(db.masters, company, material, fefoEnabled);
    var shelf := Shelf(db.stock, fefo, StockOf(company, material, warehouse, status));
    var picks := Picks(shelf, quantity);
    SelectedOnShelf(db.stock, fefo, company, material, warehouse, status, r);
    OldestPicked(db.stock, fefo, StockOf(company, material, warehouse, status), picks, quantity, i, r);
    SelectedOnShelf(db.stock, fefo, company, material, warehouse, status, picks[i].row);
  }

  lemma SelectedOnShelf(
      s: Stock, fefo: bool, company: Id, material: Id, warehouse: Option<Id>, status: Status, r: Row)
    requires Agrees(s)
    ensures r in Shelf(s, fefo, StockOf(company, material, warehouse, status))
            <==> r in s.rows && Selected(r, company, material, warehouse, status)
    ensures r in s.rows ==> r.key.lot.batch < |s.batches|
  {
    ShelfOrders(s, fefo, StockOf(company, material, warehouse, status));
  }

  lemma OldestPicked(s: Stock, fefo: bool, w: Where, picks: seq<Pick>, quantity: real, i: nat, r: Row)
    requires picks == Picks(Shelf(s, fefo, w), quantity) && r in Shelf(s, fefo, w) && i < |picks|
    requires forall x | x in s.rows :: x.key.lot.batch < |s.batches|
    ensures picks[i].row in Shelf(s, fefo, w)
    ensures picks[i].row in s.rows && r in s.rows
    ensures StrictlyOlder(s.batches[r.key.lot.batch], s.batches[picks[i].row.key.lot.batch], fefo)
            ==> exists k | 0 <= k < i :: picks[k].row == r
  {
    var shelf := Shelf(s, fefo, w);
    ShelfOrders(s, fefo, w);
    PicksTakeMinimum(shelf, quantity);
    assert shelf[i] in shelf;
    var j: nat :| j < |shelf| && shelf[j] == r;
    if i <= j {
      SortedByFields(shelf, s.batches, fefo, i, j);
    } else {
      assert picks[j].row == r;
    }
  }
}
