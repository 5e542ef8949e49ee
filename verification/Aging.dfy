/** The aging report: stock by age of its batch, and the lists of slow, dead, expired
    and soon expiring stock. */
module Aging {
  import opened Base
  import opened DocumentSeries
  import opened Numerals
  import opened StorePolicy
  import opened Tables

  /** A stock row with its batch, as the query returns them. */
  datatype Line = Line(row: Row, batch: Batch)

  predicate Analysed(company: Id, line: Line) {
    && line.row.key.lot.company == company
    && line.row.quantity > 0.0
    && line.row.key.status in {Available, QualityHold, Reserved}
  }

  /** Whole days of milliseconds, rounded down. */
  function WholeDays(from: int, to: int): int {
    (to - from) / 86_400_000
  }

  /** Whole days since receipt, negative for a receipt in the future. */
  function Age(line: Line, now: int): int {
    WholeDays(line.batch.receivedAt, now)
  }

  function DaysToExpiry(line: Line, now: int): int
    requires line.batch.expiryDate.Some?
  {
    WholeDays(now, line.batch.expiryDate.value)
  }

  /** The report's lists, and what each two of them make together. */
  datatype Group = Dead | Slow | SlowOrDead | Expired | Expiring | ExpiredOrExpiring

  predicate Belongs(line: Line, group: Group, p: StorePolicy.Policy, now: int) {
    match group
    case Dead => Age(line, now) >= p.deadStockDays
    case Slow => p.slowStockDays <= Age(line, now) < p.deadStockDays
    case SlowOrDead => Age(line, now) >= p.slowStockDays
    case Expired => line.batch.expiryDate.Some? && DaysToExpiry(line, now) < 0
    case Expiring => line.batch.expiryDate.Some? && 0 <= DaysToExpiry(line, now) <= p.nearExpiryDays
    case ExpiredOrExpiring => line.batch.expiryDate.Some? && DaysToExpiry(line, now) <= p.nearExpiryDays
  }

  function InGroup(stocks: seq<Line>, group: Group, p: StorePolicy.Policy, now: int): seq<Line> {
    if stocks == [] then []
    else
      var last := stocks[|stocks| - 1];
      InGroup(stocks[..|stocks| - 1], group, p, now) + (if Belongs(last, group, p, now) then [last] else [])
  }

  function AnalysedOf(lines: seq<Line>, company: Id): seq<Line> {
    if lines == [] then []
    else
      var last := lines[|lines| - 1];
      AnalysedOf(lines[..|lines| - 1], company) + (if Analysed(company, last) then [last] else [])
  }

  function First50(lines: seq<Line>): (first: seq<Line>)
    ensures first <= lines && (|first| == 50 || (|first| < 50 && first == lines))
  {
    if |lines| <= 50 then lines else lines[..50]
  }

  // ----- buckets -----

  /** The first day of bucket `i`; the last bucket follows all bands. */
  function Lower(bands: seq<int>, i: nat): int
    requires i <= |bands|
  {
    if i == 0 then 0 else bands[i - 1] + 1
  }

  ghost predicate Positive(bands: seq<int>) {
    Rising(bands) && (bands != [] ==> bands[0] > 0)
  }

  function Signed(n: int): string {
    if n < 0 then "-" + Decimal(-n) else Decimal(n)
  }

  datatype Label = Band(lower: int, upper: int) | Plus(lower: int)

  /** A label as it is written. */
  function Name(l: Label): string {
    match l
    case Band(lower, upper) => "d" + (Signed(lower) + ("_" + Signed(upper)))
    case Plus(lower) => "d" + (Signed(lower) + "_plus")
  }

  function LabelAt(bands: seq<int>, i: nat): Label
    requires i <= |bands|
  {
    if i < |bands| then Band(Lower(bands, i), bands[i]) else Plus(Lower(bands, i))
  }

  /** The bucket of an age: the first band that reaches it, or the last bucket. */
  function Bucket(bands: seq<int>, age: int): (i: nat)
    ensures i <= |bands|
  {
    if bands == [] || age <= bands[0] then 0 else 1 + Bucket(bands[1..], age)
  }

  /** The quantity of the lines in bucket `i`. */
  function SumOf(lines: seq<Line>, bands: seq<int>, now: int, i: nat): real {
    if lines == [] then 0.0
    else
      var last := lines[|lines| - 1];
      SumOf(lines[..|lines| - 1], bands, now, i)
      + (if Bucket(bands, Age(last, now)) == i then last.row.quantity else 0.0)
  }

  function Labels(bands: seq<int>, n: nat): set<Label>
    requires n <= |bands| + 1
  {
    set i | 0 <= i < n :: LabelAt(bands, i)
  }

  datatype Report = Report(
    buckets: map<Label, real>,
    nearExpiry: seq<Line>,
    expired: seq<Line>,
    slowMoving: seq<Line>,
    deadStock: seq<Line>)

  // ----- labels -----

  lemma NumberShown(n: nat, rest: string)
    requires rest != [] && !IsDigit(rest[0])
    ensures LeadingValue(Decimal(n) + rest, 0) == n
  {
    DecimalDigits(n);
    DecimalValue(n);
    DigitsThenRest(Decimal(n), rest, 0);
  }

  lemma NameShowsLower(l: Label)
    requires l.lower >= 0
    ensures LeadingValue(Name(l)[1..], 0) == l.lower
  {
    match l
    case Band(lower, upper) => NumberShown(lower, "_" + Signed(upper));
    case Plus(lower) => NumberShown(lower, "_plus");
  }

  /** No two buckets share a label, nor do their labels read the same. */
  lemma LabelsDiffer(bands: seq<int>, i: nat, j: nat)
    requires Positive(bands) && i < j <= |bands|
    ensures LabelAt(bands, i) != LabelAt(bands, j)
    ensures Name(LabelAt(bands, i)) != Name(LabelAt(bands, j))
  {
    NameShowsLower(LabelAt(bands, i));
    NameShowsLower(LabelAt(bands, j));
  }

  // ----- the report -----

  /** The buckets of a policy, each at zero. */
  method StartBuckets(bands: seq<int>) returns (aging: map<Label, real>)
    requires bands != []
    ensures aging.Keys == Labels(bands, |bands| + 1)
    ensures forall i | 0 <= i <= |bands| :: LabelAt(bands, i) in aging && aging[LabelAt(bands, i)] == 0.0
  {
    var finalBand := bands[|bands| - 1];
    aging := map[];
    var lower := 0;
    for i := 0 to |bands|
      invariant lower == Lower(bands, i)
      invariant aging.Keys == Labels(bands, i)
      invariant forall k | 0 <= k < i :: LabelAt(bands, k) in aging && aging[LabelAt(bands, k)] == 0.0
    {
      var upper := bands[i];
      aging := aging[Band(lower, upper) := 0.0];
      assert Labels(bands, i + 1) == Labels(bands, i) + {LabelAt(bands, i)};
      lower := upper + 1;
    }
    aging := aging[Plus(finalBand + 1) := 0.0];
    assert Labels(bands, |bands| + 1) == Labels(bands, |bands|) + {LabelAt(bands, |bands|)};
  }

  ghost predicate Tallied(aging: map<Label, real>, stocks: seq<Line>, bands: seq<int>, now: int) {
    && aging.Keys == Labels(bands, |bands| + 1)
    && forall i | 0 <= i <= |bands| :: LabelAt(bands, i) in aging
        && aging[LabelAt(bands, i)] == SumOf(stocks, bands, now, i)
  }

  /** Adds a line to the bucket of its age. */
  method Count(
      aging: map<Label, real>, ghost seen: seq<Line>, s: Line, bands: seq<int>, now: int) returns (more: map<Label,
      real>)
    requires Tallied(aging, seen, bands, now) && Positive(bands)
    ensures Tallied(more, seen + [s], bands, now)
  {
    var at := LabelAt(bands, Bucket(bands, Age(s, now)));
    more := aging[at := aging[at] + s.row.quantity];
  }

  datatype Lists = Lists(nearExpiry: seq<Line>, expired: seq<Line>, slowMoving: seq<Line>, deadStock: seq<Line>)

  function ListsOf(stocks: seq<Line>, p: StorePolicy.Policy, now: int): Lists {
    Lists(InGroup(stocks, Expiring, p, now), InGroup(stocks, Expired, p, now), InGroup(stocks, Slow, p, now),
        InGroup(stocks, Dead, p, now))
  }

  function AddIf(lines: seq<Line>, s: Line, group: Group, p: StorePolicy.Policy, now: int): seq<Line> {
    lines + if Belongs(s, group, p, now) then [s] else []
  }

  lemma InGroupAppend(seen: seq<Line>, s: Line, group: Group, p: StorePolicy.Policy, now: int)
    ensures InGroup(seen + [s], group, p, now) == AddIf(InGroup(seen, group, p, now), s, group, p, now)
  {
    assert (seen + [s])[..|seen|] == seen;
  }

  lemma ListsAppend(seen: seq<Line>, s: Line, p: StorePolicy.Policy, now: int)
    ensures var before, after := ListsOf(seen, p, now), ListsOf(seen + [s], p, now);
            && after.nearExpiry == AddIf(before.nearExpiry, s, Expiring, p, now)
            && after.expired == AddIf(before.expired, s, Expired, p, now)
            && after.slowMoving == AddIf(before.slowMoving, s, Slow, p, now)
            && after.deadStock == AddIf(before.deadStock, s, Dead, p, now)
  {
    InGroupAppend(seen, s, Expiring, p, now);
    InGroupAppend(seen, s, Expired, p, now);
    InGroupAppend(seen, s, Slow, p, now);
    InGroupAppend(seen, s, Dead, p, now);
  }

  method PlaceByAge(slowMoving: seq<Line>, deadStock: seq<Line>, s: Line, policy: StorePolicy.Policy, now: int)
    returns (slow: seq<Line>, dead: seq<Line>)
    requires policy.slowStockDays <= policy.deadStockDays
    ensures slow == AddIf(slowMoving, s, Slow, policy, now) && dead == AddIf(deadStock, s, Dead, policy, now)
  {
    slow, dead := slowMoving, deadStock;
    var ageDays := Age(s, now);
    if ageDays >= policy.deadStockDays {
      dead := dead + [s];
    } else if ageDays >= policy.slowStockDays {
      slow := slow + [s];
    }
  }

  method PlaceByExpiry(nearExpiry: seq<Line>, expired: seq<Line>, s: Line, policy: StorePolicy.Policy, now: int)
    returns (near: seq<Line>, past: seq<Line>)
    ensures near == AddIf(nearExpiry, s, Expiring, policy, now) && past == AddIf(expired, s, Expired, policy, now)
  {
    near, past := nearExpiry, expired;
    if s.batch.expiryDate.Some? {
      var daysToExp := DaysToExpiry(s, now);
      if daysToExp < 0 {
        past := past + [s];
      } else if daysToExp <= policy.nearExpiryDays {
        near := near + [s];
      }
    }
  }

  /** Puts a line on the lists it belongs to. */
  method Place(lists: Lists, ghost seen: seq<Line>, s: Line, policy: StorePolicy.Policy, now: int) returns (more: Lists)
    requires lists == ListsOf(seen, policy, now) && policy.slowStockDays <= policy.deadStockDays
    ensures more == ListsOf(seen + [s], policy, now)
  {
    var slow, dead := PlaceByAge(lists.slowMoving, lists.deadStock, s, policy, now);
    var near, past := PlaceByExpiry(lists.nearExpiry, lists.expired, s, policy, now);
    ListsAppend(seen, s, policy, now);
    more := Lists(near, past, slow, dead);
  }

  method AnalyzeStocks(stocks: seq<Line>, policy: StorePolicy.Policy, now: int)
    returns (buckets: map<Label, real>, lists: Lists)
    requires Sensible(policy)
    ensures Tallied(buckets, stocks, policy.agingBands, now)
    ensures lists == ListsOf(stocks, policy, now)
  {
    buckets := StartBuckets(policy.agingBands);
    lists := Lists([], [], [], []);
    for i := 0 to |stocks|
      invariant Tallied(buckets, stocks[..i], policy.agingBands, now)
      invariant lists == ListsOf(stocks[..i], policy, now)
    {
      buckets := Count(buckets, stocks[..i], stocks[i], policy.agingBands, now);
      lists := Place(lists, stocks[..i], stocks[i], policy, now);
      assert stocks[..i + 1] == stocks[..i] + [stocks[i]];
    }
    assert stocks[..|stocks|] == stocks;
  }

  method Analyze(lines: seq<Line>, company: Id, settings: Settings, now: int) returns (r: Report)
    ensures var p, stocks := Resolve(settings), AnalysedOf(lines, company);
            && Tallied(r.buckets, stocks, p.agingBands, now)
            && r.deadStock == First50(InGroup(stocks, Dead, p, now))
            && r.slowMoving == First50(InGroup(stocks, Slow, p, now))
            && r.expired == First50(InGroup(stocks, Expired, p, now))
            && r.nearExpiry == First50(InGroup(stocks, Expiring, p, now))
  {
    ResolvedIsSensible(settings);
    var buckets, lists := AnalyzeStocks(AnalysedOf(lines, company), Resolve(settings), now);
    r := Report(buckets, First50(lists.nearExpiry), First50(lists.expired), First50(lists.slowMoving),
        First50(lists.deadStock));
  }

  // ----- what the report says -----

  /** When a line is in a group, in milliseconds: at least so many days since receipt, or
      expired, or expiring within so many whole days. */
  predicate Due(line: Line, group: Group, p: StorePolicy.Policy, now: int) {
    var age, expiry := now - line.batch.receivedAt, line.batch.expiryDate;
    match group
    case Dead => age >= p.deadStockDays * 86_400_000
    case Slow => p.slowStockDays * 86_400_000 <= age < p.deadStockDays * 86_400_000
    case SlowOrDead => age >= p.slowStockDays * 86_400_000
    case Expired => expiry.Some? && expiry.value < now
    case Expiring => expiry.Some? && now <= expiry.value < now + (p.nearExpiryDays + 1) * 86_400_000
    case ExpiredOrExpiring => expiry.Some? && expiry.value < now + (p.nearExpiryDays + 1) * 86_400_000
  }

  lemma DaysReached(from: int, to: int, days: int)
    ensures WholeDays(from, to) >= days <==> to - from >= days * 86_400_000
  {
    var rest := (to - from) % 86_400_000;
    assert to - from == WholeDays(from, to) * 86_400_000 + rest && 0 <= rest < 86_400_000;
  }

  lemma BelongsWhenDue(line: Line, group: Group, p: StorePolicy.Policy, now: int)
    ensures Belongs(line, group, p, now) <==> Due(line, group, p, now)
  {
    DaysReached(line.batch.receivedAt, now, p.deadStockDays);
    DaysReached(line.batch.receivedAt, now, p.slowStockDays);
    if line.batch.expiryDate.Some? {
      DaysReached(now, line.batch.expiryDate.value, 0);
      DaysReached(now, line.batch.expiryDate.value, p.nearExpiryDays + 1);
    }
  }

  /** The analysed lines are those of the company with a quantity, available, on hold or
      reserved, each as often as it was read. */
  lemma {:induction false} AnalysedHolds(lines: seq<Line>, company: Id, line: Line)
    ensures multiset(AnalysedOf(lines, company))[line]
         == if line.row.key.lot.company == company && line.row.quantity > 0.0
               && (line.row.key.status == Available || line.row.key.status == QualityHold
                   || line.row.key.status == Reserved)
            then multiset(lines)[line] else 0
  {
    if lines == [] {
    } else {
      AnalysedHolds(lines[..|lines| - 1], company, line);
      assert lines == lines[..|lines| - 1] + [lines[|lines| - 1]];
    }
  }

  /** Each group's lines are those due for it, each as often as it was analysed. */
  lemma {:induction false} GroupHolds(stocks: seq<Line>, group: Group, p: StorePolicy.Policy, now: int, line: Line)
    ensures multiset(InGroup(stocks, group, p, now))[line]
         == if Due(line, group, p, now) then multiset(stocks)[line] else 0
  {
    if stocks == [] {
    } else {
      var front := stocks[..|stocks| - 1];
      GroupHolds(front, group, p, now, line);
      BelongsWhenDue(line, group, p, now);
      assert stocks == front + [stocks[|stocks| - 1]];
    }
  }

  /** Each age lies in exactly one bucket: the one between its first day and its band. */
  lemma {:induction false} BucketIsInterval(bands: seq<int>, age: int, i: nat)
    requires Rising(bands) && i <= |bands|
    ensures Bucket(bands, age) == i
            <==> (i == 0 || Lower(bands, i) <= age) && (i == |bands| || age <= bands[i])
  {
    if bands == [] {
    } else {
      if i > 0 {
        BucketIsInterval(bands[1..], age, i - 1);
      }
      assert 0 < i < |bands| ==> bands[0] < bands[i];
      assert i > 1 ==> bands[0] < bands[i - 1];
    }
  }

  function Total(stocks: seq<Line>): real {
    if stocks == [] then 0.0 else Total(stocks[..|stocks| - 1]) + stocks[|stocks| - 1].row.quantity
  }

  /** The first `n` buckets together. */
  function BucketsTotal(stocks: seq<Line>, bands: seq<int>, now: int, n: nat): real {
    if n == 0 then 0.0 else BucketsTotal(stocks, bands, now, n - 1) + SumOf(stocks, bands, now, n - 1)
  }

  lemma {:induction false} OneLineMore(stocks: seq<Line>, bands: seq<int>, now: int, n: nat)
    requires stocks != []
    ensures var last := stocks[|stocks| - 1];
            BucketsTotal(stocks, bands, now, n)
            == BucketsTotal(stocks[..|stocks| - 1], bands, now, n)
               + (if Bucket(bands, Age(last, now)) < n then last.row.quantity else 0.0)
  {
    if n == 0 {
    } else {
      OneLineMore(stocks, bands, now, n - 1);
    }
  }

  /** The buckets add up to all the stock analysed. */
  lemma {:induction false} BucketsAddUp(stocks: seq<Line>, bands: seq<int>, now: int)
    ensures BucketsTotal(stocks, bands, now, |bands| + 1) == Total(stocks)
  {
    if stocks == [] {
      NothingInBuckets(bands, now, |bands| + 1);
    } else {
      OneLineMore(stocks, bands, now, |bands| + 1);
      BucketsAddUp(stocks[..|stocks| - 1], bands, now);
    }
  }

  lemma {:induction false} NothingInBuckets(bands: seq<int>, now: int, n: nat)
    ensures BucketsTotal([], bands, now, n) == 0.0
  {
    if n == 0 {
    } else {
      NothingInBuckets(bands, now, n - 1);
    }
  }

  lemma {:induction false} AgesSplit(stocks: seq<Line>, p: StorePolicy.Policy, now: int)
    requires p.slowStockDays <= p.deadStockDays
    ensures multiset(InGroup(stocks, SlowOrDead, p, now))
            == multiset(InGroup(stocks, Slow, p, now)) + multiset(InGroup(stocks, Dead, p, now))
  {
    if stocks == [] {
    } else {
      AgesSplit(stocks[..|stocks| - 1], p, now);
    }
  }

  /** Whatever the settings, slow and dead stock are together exactly the stock at least
      as old as the slow threshold, no line in both: the thresholds resolve in order. */
  lemma SlowAndDeadSplit(stocks: seq<Line>, settings: Settings, now: int)
    ensures var p := Resolve(settings);
            multiset(InGroup(stocks, SlowOrDead, p, now))
            == multiset(InGroup(stocks, Slow, p, now)) + multiset(InGroup(stocks, Dead, p, now))
  {
    ResolvedIsSensible(settings);
    AgesSplit(stocks, Resolve(settings), now);
  }

  /** Expired and soon expiring stock are together exactly the dated stock within the
      warning days, no line in both. */
  lemma {:induction false} ExpirySplit(stocks: seq<Line>, p: StorePolicy.Policy, now: int)
    ensures multiset(InGroup(stocks, ExpiredOrExpiring, p, now))
            == multiset(InGroup(stocks, Expired, p, now)) + multiset(InGroup(stocks, Expiring, p, now))
  {
    if stocks == [] {
    } else {
      ExpirySplit(stocks[..|stocks| - 1], p, now);
    }
  }
}
