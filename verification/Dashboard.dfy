/**
 The dashboard's delivery series and order counts. Times are milliseconds since a local midnight, in
 a zone of fixed offset, so that days and hours have fixed widths.
 */
module Dashboard {
  import opened Options
  import opened Shipments

  datatype Interval = Hourly | Daily

  const HOUR := 3_600_000
  const DAY := 86_400_000

  function Width(interval: Interval): (w: int)
    ensures w > 0
  {
    if interval.Daily? then DAY else HOUR
  }

  /** An hourly bucket holds an hour of milliseconds, a daily one twenty-four of them. */
  lemma WidthTable()
    ensures Width(Hourly) == 60 * 60 * 1000 && Width(Daily) == 24 * Width(Hourly)
  {
  }

  function Truncate(time: int, interval: Interval): int {
    time - time % Width(interval)
  }

  function Increment(cursor: int, interval: Interval): int {
    cursor + Width(interval)
  }

  predicate OnBoundary(time: int, interval: Interval) { time % Width(interval) == 0 }

  /** `start` is the start of the bucket in which `time` falls. */
  predicate IsBucketOf(start: int, time: int, interval: Interval) {
    OnBoundary(start, interval) && start <= time < start + Width(interval)
  }

  /** Truncation finds the one bucket of a time. */
  lemma TruncateFindsTheBucket(time: int, interval: Interval, start: int)
    ensures Truncate(time, interval) == start <==> IsBucketOf(start, time, interval)
  {
    var w := Width(interval);
    assert time == time / w * w + time % w;
    if Truncate(time, interval) == start {
      assert start == time / w * w;
      assert start % w == 0 by { MultipleHasNoRemainder(time / w, w); }
    } else if IsBucketOf(start, time, interval) {
      assert start == start / w * w;
      SameQuotient(time / w, start / w, w, time % w, time - start);
      assert false;
    }
  }

  lemma MultipleHasNoRemainder(k: int, w: int)
    requires w > 0
    ensures k * w % w == 0
  {
    var q, r := k * w / w, k * w % w;
    assert q * w + r == k * w;
    SameQuotient(q, k, w, r, 0);
  }

  lemma SameQuotient(a: int, b: int, w: int, r: int, s: int)
    requires w > 0 && 0 <= r < w && 0 <= s < w && a * w + r == b * w + s
    ensures a == b && r == s
  {
    if a > b {
      Spread(a, b, w);
    } else if a < b {
      Spread(b, a, w);
    }
  }

  lemma Spread(a: int, b: int, w: int)
    requires w > 0 && a > b
    ensures a * w >= b * w + w
  {
    var d := a - b - 1;
    assert a * w == (b + 1 + d) * w == b * w + w + d * w;
  }

  lemma NextBucketStarts(cursor: int, interval: Interval)
    requires OnBoundary(cursor, interval)
    ensures OnBoundary(Increment(cursor, interval), interval)
  {
    var w := Width(interval);
    assert cursor == cursor / w * w;
    assert cursor + w == (cursor / w + 1) * w;
    MultipleHasNoRemainder(cursor / w + 1, w);
  }

  // ----- the filter

  datatype Filter = Filter(from: Option<int>, to: Option<int>, interval: Option<Interval>, fleetLimit: Option<int>)

  datatype Range = Range(from: int, to: int, interval: Interval, fleetLimit: int, graceMinutes: int)

  const DEFAULT_FLEET_LIMIT := 20
  const MAX_FLEET_LIMIT := 200
  const GRACE_MINUTES := 30

  /**
   The range is never empty or in the future and the fleet limit stays in bounds, and whatever the caller
   validly asked for is kept: only an end in the future, a start after the end and a limit out of bounds
   are replaced.
   */
  method NormalizeFilter(input: Filter, now: int) returns (range: Range)
    ensures range == Normalized(input, now)
    ensures range.from <= range.to <= now && 1 <= range.fleetLimit <= MAX_FLEET_LIMIT
            && range.graceMinutes == GRACE_MINUTES
    ensures input.to.Some? && input.to.value <= now ==> range.to == input.to.value
    ensures input.from.Some? && input.from.value <= range.to ==> range.from == input.from.value
    ensures input.interval.Some? ==> range.interval == input.interval.value
    ensures input.fleetLimit.Some? && 1 <= input.fleetLimit.value <= MAX_FLEET_LIMIT ==>
            range.fleetLimit == input.fleetLimit.value
    ensures input.fleetLimit.None? ==> range.fleetLimit == 20
    ensures input.fleetLimit.Some? && input.fleetLimit.value > 200 ==> range.fleetLimit == 200
    ensures !(input.to.Some? && input.to.value <= now) ==> range.to == now
    ensures input.interval.None? ==> (range.interval.Daily? <==> range.to - range.from > 2 * 24 * 60 * 60 * 1000)
    ensures range.graceMinutes == 30
    ensures !(input.from.Some? && input.from.value <= range.to) ==> IsBucketOf(range.from, range.to, Daily)
  {
    NormalizedIsValid(input, now);
    var to := if input.to.Some? && input.to.value <= now then input.to.value else now;
    var from := if input.from.Some? then input.from.value else Truncate(to, Daily);
    if from > to { from := Truncate(to, Daily); }
    var interval := if input.interval.Some? then input.interval.value
                    else if to - from > 2 * DAY then Daily else Hourly;
    var limit := if input.fleetLimit.Some? then input.fleetLimit.value else DEFAULT_FLEET_LIMIT;
    limit := if 1 > limit then 1 else limit;
    range := Range(from, to, interval, if MAX_FLEET_LIMIT < limit then MAX_FLEET_LIMIT else limit, GRACE_MINUTES);
  }

  function Normalized(input: Filter, now: int): Range {
    var to := if input.to.Some? && input.to.value <= now then input.to.value else now;
    var from := if input.from.Some? && input.from.value <= to then input.from.value else Truncate(to, Daily);
    Range(from, to,
          if input.interval.Some? then input.interval.value else if to - from > 2 * DAY then Daily else Hourly,
          if input.fleetLimit.None? then DEFAULT_FLEET_LIMIT
          else if input.fleetLimit.value < 1 then 1
          else if input.fleetLimit.value > MAX_FLEET_LIMIT then MAX_FLEET_LIMIT
          else input.fleetLimit.value,
          GRACE_MINUTES)
  }

  /** A normalized range is never empty or in the future, and keeps whatever the caller validly asked for. */
  lemma NormalizedIsValid(input: Filter, now: int)
    ensures var r := Normalized(input, now);
            && r.from <= r.to <= now && 1 <= r.fleetLimit <= MAX_FLEET_LIMIT
            && (input.to.Some? && input.to.value <= now ==> r.to == input.to.value)
            && (input.from.Some? && input.from.value <= r.to ==> r.from == input.from.value)
            && (input.interval.Some? ==> r.interval == input.interval.value)
            && (input.interval.None? ==> (r.interval.Hourly? <==> r.to - r.from <= 2 * DAY))
            && (!(input.from.Some? && input.from.value <= r.to) ==> IsBucketOf(r.from, r.to, Daily))
  {
    TruncateFindsTheBucket(Normalized(input, now).to, Daily, Truncate(Normalized(input, now).to, Daily));
  }

  // ----- shipments on the dashboard

  datatype Row = Row(status: Status, updatedAt: int, scheduledAt: Option<int>)

  const ACTIVE_STATUSES := {Draft, Created, Broadcasting, Assigned, EnRoutePickup, PickedUp, EnRouteDropoff}
  const COMPLETED_STATUSES := {Status.Delivered, Completed}
  const WAITING_STATUSES := {Draft, Created, Broadcasting}
  const CANCELLED_STATUSES := {Status.Cancelled, Expired}

  predicate IsDelayed(row: Row, now: int, grace: int) {
    row.status in ACTIVE_STATUSES && row.scheduledAt.Some? && now > row.scheduledAt.value + grace * 60_000
  }

  /** A shipment is delayed exactly when it is under way or waiting, was scheduled, and its grace is over. */
  lemma DelayedExactly(row: Row, now: int, grace: int)
    ensures IsDelayed(row, now, grace) <==>
            && row.status !in {Status.Delivered, Completed, Status.Cancelled, Expired}
            && row.scheduledAt.Some? && now > row.scheduledAt.value + grace * 60 * 1000
  {
    StatusIsClassified(row.status);
  }

  /** The rows last updated from `from` and before `to` that satisfy `p`. */
  function CountIn(rows: seq<Row>, p: Row -> bool, from: int, to: int): nat {
    if rows == [] then 0
    else
      var last := rows[|rows| - 1];
      CountIn(rows[..|rows| - 1], p, from, to) + (if p(last) && from <= last.updatedAt < to then 1 else 0)
  }

  function IsDone(): Row -> bool { (row: Row) => row.status in COMPLETED_STATUSES }

  function IsLate(now: int, grace: int): Row -> bool { (row: Row) => IsDelayed(row, now, grace) }

  // ----- the delivery series

  datatype Bucket = Bucket(start: int, delivered: nat, delayed: nat)

  function BucketAt(rows: seq<Row>, start: int, interval: Interval, now: int, grace: int): Bucket {
    var end := start + Width(interval);
    Bucket(start, CountIn(rows, IsDone(), start, end), CountIn(rows, IsLate(now, grace), start, end))
  }

  /** Consecutive buckets from the one of `from` to the one of `to`, each with its own counts. */
  ghost predicate IsSeries(series: seq<Bucket>, rows: seq<Row>, from: int, to: int, interval: Interval, now: int,
                           grace: int) {
    var first, w := Truncate(from, interval), Width(interval);
    && (forall i | 0 <= i < |series| :: series[i] == BucketAt(rows, first + i * w, interval, now, grace))
    && first + |series| * w > to
    && (series != [] ==> first + (|series| - 1) * w <= to)
  }

  /** Every bucket starts on a boundary and counts exactly the rows that fall in it. */
  ghost predicate Filled(buckets: map<int, Bucket>, rows: seq<Row>, interval: Interval, now: int, grace: int) {
    forall k | k in buckets :: OnBoundary(k, interval) && buckets[k] == BucketAt(rows, k, interval, now, grace)
  }

  function Counted(bucket: Bucket, row: Row, now: int, grace: int): Bucket {
    bucket.(delivered := bucket.delivered + (if row.status in COMPLETED_STATUSES then 1 else 0),
            delayed := bucket.delayed + (if IsDelayed(row, now, grace) then 1 else 0))
  }

  lemma BucketGrows(rows: seq<Row>, row: Row, k: int, interval: Interval, now: int, grace: int)
    requires OnBoundary(k, interval)
    ensures BucketAt(rows + [row], k, interval, now, grace) ==
      if Truncate(row.updatedAt, interval) == k then Counted(BucketAt(rows, k, interval, now, grace), row, now, grace)
      else BucketAt(rows, k, interval, now, grace)
  {
    TruncateFindsTheBucket(row.updatedAt, interval, k);
    hide Truncate, Width;
    assert (rows + [row])[..|rows|] == rows;
  }

  /** One more row changes the bucket it falls in, if there is one, and no other. */
  lemma FillsOne(buckets: map<int, Bucket>, rows: seq<Row>, row: Row, interval: Interval, now: int, grace: int)
    requires Filled(buckets, rows, interval, now, grace)
    ensures var start := Truncate(row.updatedAt, interval);
            var buckets' := if start !in buckets then buckets
                            else buckets[start := Counted(buckets[start], row, now, grace)];
            Filled(buckets', rows + [row], interval, now, grace)
  {
    forall k | k in buckets
      ensures BucketAt(rows + [row], k, interval, now, grace) ==
        if Truncate(row.updatedAt, interval) == k then Counted(buckets[k], row, now, grace) else buckets[k]
    {
      BucketGrows(rows, row, k, interval, now, grace);
    }
    hide Truncate, BucketAt, Width, Counted, OnBoundary;
  }

  method DeliveryPerformanceSeries(rows: seq<Row>, from: int, to: int, interval: Interval, now: int, grace: int)
    returns (series: seq<Bucket>)
    ensures IsSeries(series, rows, from, to, interval, now, grace)
  {
    var first, w := Truncate(from, interval), Width(interval);
    TruncateFindsTheBucket(from, interval, first);
    hide Truncate, OnBoundary, Width;
    var buckets: map<int, Bucket>, keys: seq<int> := map[], [];
    var cursor := first;
    while cursor <= to
      invariant cursor == first + |keys| * w && OnBoundary(cursor, interval)
      invariant keys != [] ==> first + (|keys| - 1) * w <= to
      invariant forall i | 0 <= i < |keys| :: keys[i] == first + i * w && keys[i] in buckets
      invariant Filled(buckets, [], interval, now, grace)
    {
      buckets := buckets[cursor := Bucket(cursor, 0, 0)];
      keys := keys + [cursor];
      NextBucketStarts(cursor, interval);
      cursor := Increment(cursor, interval);
    }
    for i := 0 to |rows|
      invariant forall j | 0 <= j < |keys| :: keys[j] in buckets
      invariant Filled(buckets, rows[..i], interval, now, grace)
    {
      assert rows[..i + 1] == rows[..i] + [rows[i]];
      FillsOne(buckets, rows[..i], rows[i], interval, now, grace);
      hide Filled, IsDelayed;
      var start := Truncate(rows[i].updatedAt, interval);
      if start !in buckets { continue; }
      var bucket := buckets[start];
      if rows[i].status in COMPLETED_STATUSES { bucket := bucket.(delivered := bucket.delivered + 1); }
      if IsDelayed(rows[i], now, grace) { bucket := bucket.(delayed := bucket.delayed + 1); }
      buckets := buckets[start := bucket];
    }
    assert rows[..|rows|] == rows;
    series := seq(|keys|, i requires 0 <= i < |keys| && keys[i] in buckets => buckets[keys[i]]);
  }

  function SumDelivered(series: seq<Bucket>): nat {
    if series == [] then 0 else SumDelivered(series[..|series| - 1]) + series[|series| - 1].delivered
  }

  function SumDelayed(series: seq<Bucket>): nat {
    if series == [] then 0 else SumDelayed(series[..|series| - 1]) + series[|series| - 1].delayed
  }

  lemma {:induction false} CountSplits(rows: seq<Row>, p: Row -> bool, from: int, mid: int, to: int)
    requires from <= mid <= to
    ensures CountIn(rows, p, from, to) == CountIn(rows, p, from, mid) + CountIn(rows, p, mid, to)
  {
    if rows != [] { CountSplits(rows[..|rows| - 1], p, from, mid, to); }
  }

  lemma {:induction false} CountOfNothing(rows: seq<Row>, p: Row -> bool, from: int)
    ensures CountIn(rows, p, from, from) == 0
  {
    if rows != [] { CountOfNothing(rows[..|rows| - 1], p, from); }
  }

  lemma {:induction false} ConsecutiveBucketsAddUp(series: seq<Bucket>, rows: seq<Row>, first: int, interval: Interval,
                                                   now: int, grace: int)
    requires forall i | 0 <= i < |series| ::
             series[i] == BucketAt(rows, first + i * Width(interval), interval, now, grace)
    ensures var end := first + |series| * Width(interval);
            && SumDelivered(series) == CountIn(rows, IsDone(), first, end)
            && SumDelayed(series) == CountIn(rows, IsLate(now, grace), first, end)
    decreases |series|
  {
    var w := Width(interval);
    if series == [] {
      CountOfNothing(rows, IsDone(), first);
      CountOfNothing(rows, IsLate(now, grace), first);
    } else {
      var n := |series| - 1;
      ConsecutiveBucketsAddUp(series[..n], rows, first, interval, now, grace);
      assert first <= first + n * w && first + n * w + w == first + |series| * w;
      CountSplits(rows, IsDone(), first, first + n * w, first + n * w + w);
      CountSplits(rows, IsLate(now, grace), first, first + n * w, first + n * w + w);
    }
  }

  /**
   The buckets lose and repeat nothing: their sums are the counts between the first bucket's start and
   the last one's end, which take in the whole of a non-empty range.
   */
  lemma SeriesAccountsForEverything(series: seq<Bucket>, rows: seq<Row>, from: int, to: int, interval: Interval,
                                    now: int, grace: int)
    requires from <= to && IsSeries(series, rows, from, to, interval, now, grace)
    ensures series != [] && series[0].start <= from && to < series[|series| - 1].start + Width(interval)
    ensures forall i | 0 < i < |series| :: series[i].start == series[i - 1].start + Width(interval)
    ensures var end := series[|series| - 1].start + Width(interval);
            && SumDelivered(series) == CountIn(rows, IsDone(), series[0].start, end)
            && SumDelayed(series) == CountIn(rows, IsLate(now, grace), series[0].start, end)
  {
    var first, w := Truncate(from, interval), Width(interval);
    TruncateFindsTheBucket(from, interval, first);
    ConsecutiveBucketsAddUp(series, rows, first, interval, now, grace);
    var n := |series|;
    assert n > 0;
    assert first + (n - 1) * w + w == first + n * w;
    forall i | 0 < i < n ensures series[i].start == series[i - 1].start + w {
      assert first + (i - 1) * w + w == first + i * w;
    }
  }

  // ----- order counts

  datatype Metric = OnTheWay | DeliveredOrders | DelayedOrders | Waiting | CancelledOrders

  /** What each count is meant to hold. */
  predicate Belongs(row: Row, metric: Metric, now: int, grace: int) {
    match metric
    case DeliveredOrders => row.status in COMPLETED_STATUSES
    case CancelledOrders => row.status in CANCELLED_STATUSES
    case DelayedOrders => IsDelayed(row, now, grace)
    case Waiting => row.status in WAITING_STATUSES && !IsDelayed(row, now, grace)
    case OnTheWay => row.status in ACTIVE_STATUSES && row.status !in WAITING_STATUSES && !IsDelayed(row, now, grace)
  }

  lemma StatusIsClassified(s: Status)
    ensures s in ACTIVE_STATUSES || s in COMPLETED_STATUSES || s in CANCELLED_STATUSES
  {
    match s
    case Draft => case Created => case Broadcasting => case Assigned => case EnRoutePickup => case PickedUp =>
    case EnRouteDropoff => case Delivered => case Completed => case Cancelled => case Expired =>
  }

  /** Where each status is counted; the delayed shipments are counted apart. */
  lemma MetricTable(row: Row, now: int, grace: int)
    ensures Belongs(row, DeliveredOrders, now, grace) <==> row.status in {Status.Delivered, Completed}
    ensures Belongs(row, CancelledOrders, now, grace) <==> row.status in {Status.Cancelled, Expired}
    ensures Belongs(row, DelayedOrders, now, grace) <==> IsDelayed(row, now, grace)
    ensures Belongs(row, Waiting, now, grace) <==>
            row.status in {Draft, Created, Broadcasting} && !IsDelayed(row, now, grace)
    ensures Belongs(row, OnTheWay, now, grace) <==>
            row.status in {Assigned, EnRoutePickup, PickedUp, EnRouteDropoff} && !IsDelayed(row, now, grace)
    ensures IsDone()(row) <==> row.status in {Status.Delivered, Completed}
  {
  }

  /** Every row belongs to exactly one count. */
  lemma BelongsToExactlyOne(row: Row, now: int, grace: int)
    ensures exists m :: Belongs(row, m, now, grace)
    ensures forall m, n | Belongs(row, m, now, grace) && Belongs(row, n, now, grace) :: m == n
  {
    StatusIsClassified(row.status);
    var m := if row.status in COMPLETED_STATUSES then DeliveredOrders
             else if row.status in CANCELLED_STATUSES then CancelledOrders
             else if IsDelayed(row, now, grace) then DelayedOrders
             else if row.status in WAITING_STATUSES then Waiting else OnTheWay;
    assert Belongs(row, m, now, grace);
  }

  function CountOf(rows: seq<Row>, metric: Metric, now: int, grace: int): nat {
    if rows == [] then 0
    else
      var last := rows[|rows| - 1];
      CountOf(rows[..|rows| - 1], metric, now, grace) + (if Belongs(last, metric, now, grace) then 1 else 0)
  }

  method OrderStatusMetrics(rows: seq<Row>, now: int, grace: int)
    returns (onTheWay: nat, delivered: nat, delayed: nat, waiting: nat, cancelled: nat)
    ensures onTheWay + delivered + delayed + waiting + cancelled == |rows|
    ensures onTheWay == CountOf(rows, OnTheWay, now, grace) && delivered == CountOf(rows, DeliveredOrders, now, grace)
    ensures delayed == CountOf(rows, DelayedOrders, now, grace) && waiting == CountOf(rows, Waiting, now, grace)
    ensures cancelled == CountOf(rows, CancelledOrders, now, grace)
  {
    onTheWay, delivered, delayed, waiting, cancelled := 0, 0, 0, 0, 0;
    for i := 0 to |rows|
      invariant onTheWay + delivered + delayed + waiting + cancelled == i
      invariant onTheWay == CountOf(rows[..i], OnTheWay, now, grace)
                && delivered == CountOf(rows[..i], DeliveredOrders, now, grace)
      invariant delayed == CountOf(rows[..i], DelayedOrders, now, grace)
                && waiting == CountOf(rows[..i], Waiting, now, grace)
      invariant cancelled == CountOf(rows[..i], CancelledOrders, now, grace)
    {
      var row := rows[i];
      assert rows[..i + 1][..i] == rows[..i];
      BelongsToExactlyOne(row, now, grace);
      if row.status in COMPLETED_STATUSES { delivered := delivered + 1; continue; }
      if row.status in CANCELLED_STATUSES { cancelled := cancelled + 1; continue; }
      if IsDelayed(row, now, grace) { delayed := delayed + 1; continue; }
      if row.status in WAITING_STATUSES { waiting := waiting + 1; continue; }
      if row.status in ACTIVE_STATUSES { onTheWay := onTheWay + 1; continue; }
    }
    assert rows[..|rows|] == rows;
  }
}
