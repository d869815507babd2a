/**
 The rolling heatmap window: the specification keeps every column ever made, one
 bucket at a time; the class keeps the last `maxColumns` and skips long gaps fast.
 */
module HeatmapHistories {
  import opened Wrappers
  import opened OrderBooks
  import opened Truncation
  import opened PriceBins
  import opened AutomaticBinSize

  datatype HeatmapConfig = HeatmapConfig(
    timeBucket: int, priceBinSize: Option<real>, priceBinCount: nat, maxColumns: nat, epsilon: real)
  {
    /** What the constructor accepts. */
    predicate Valid() {
      && timeBucket > 0 && priceBinCount % 2 == 1 && maxColumns > 0 && epsilon >= 0.0
      && (priceBinSize.Some? ==> priceBinSize.value > 0.0)
    }
  }

  datatype HeatmapColumn = HeatmapColumn(
    timestamp: int, firstPrice: real, priceBinSize: real, midPrice: real, bids: seq<real>, asks: seq<real>)

  datatype Outcome = Sampled | NotSampled | OutOfOrder | BadMidpoint

  // ---------- Buckets ----------

  /** `/` on `std::int64_t`, for a positive divisor. */
  function Quotient(a: int, b: int): int
    requires b > 0
  {
    if a >= 0 then a / b else -((-a) / b)
  }

  function BucketStart(timestamp: int, bucket: int): int
    requires bucket > 0
  {
    var quotient := Quotient(timestamp, bucket);
    bucket * (if timestamp < 0 && timestamp - bucket * quotient != 0 then quotient - 1 else quotient)
  }

  predicate Aligned(timestamp: int, bucket: int)
    requires bucket > 0
  {
    timestamp % bucket == 0
  }

  lemma {:induction false} MultiplesAreApart(bucket: int, d: int)
    requires bucket > 0
    ensures d >= 1 ==> bucket * d >= bucket
    ensures d <= -1 ==> bucket * d <= -bucket
  {}

  lemma {:induction false} MultipleIsAligned(k: int, bucket: int)
    requires bucket > 0
    ensures Aligned(bucket * k, bucket)
  {
    var t := bucket * k;
    assert t == bucket * (t / bucket) + t % bucket;
    var d := k - t / bucket;
    assert bucket * d == t % bucket;
    MultiplesAreApart(bucket, d);
  }

  /** Flooring for negative times too. */
  lemma {:induction false} BucketStartIsFloor(timestamp: int, bucket: int)
    requires bucket > 0
    ensures Aligned(BucketStart(timestamp, bucket), bucket)
    ensures BucketStart(timestamp, bucket) <= timestamp < BucketStart(timestamp, bucket) + bucket
  {
    var quotient := Quotient(timestamp, bucket);
    var down := timestamp < 0 && timestamp - bucket * quotient != 0;
    MultipleIsAligned(if down then quotient - 1 else quotient, bucket);
    assert bucket * (quotient - 1) == bucket * quotient - bucket;
    if timestamp < 0 {
      var n := -timestamp;
      assert bucket * (n / bucket) <= n < bucket * (n / bucket) + bucket;
      assert bucket * quotient == -(bucket * (n / bucket));
    }
  }

  lemma {:induction false} QuotientsApart(a: int, b: int, bucket: int)
    requires bucket > 0 && bucket * a < bucket * b
    ensures bucket * a + bucket <= bucket * b
  {
    assert bucket * (b - a) == bucket * b - bucket * a;
    MultiplesAreApart(bucket, b - a);
  }

  lemma {:induction false} NextAligned(t: int, u: int, bucket: int)
    requires bucket > 0 && Aligned(t, bucket) && Aligned(u, bucket) && t < u
    ensures t + bucket <= u && Aligned(t + bucket, bucket)
  {
    QuotientsApart(t / bucket, u / bucket, bucket);
    assert t + bucket == bucket * (t / bucket + 1);
    MultipleIsAligned(t / bucket + 1, bucket);
  }

  lemma {:induction false} BucketStartMonotone(t: int, u: int, bucket: int)
    requires bucket > 0 && t <= u
    ensures BucketStart(t, bucket) <= BucketStart(u, bucket)
  {
    BucketStartIsFloor(t, bucket);
    BucketStartIsFloor(u, bucket);
    if BucketStart(u, bucket) < BucketStart(t, bucket) {
      NextAligned(BucketStart(u, bucket), BucketStart(t, bucket), bucket);
    }
  }

  // ---------- One column ----------

  function Midpoint(bid: real, ask: real): real {
    bid + (ask - bid) / 2.0
  }

  function ColumnWindow(cfg: HeatmapConfig, size: real, mid: real): Window
    requires size > 0.0
  {
    Window(StableFloor(mid / size, cfg.epsilon) - cfg.priceBinCount / 2, size, cfg.priceBinCount, cfg.epsilon)
  }

  function ColumnFor(cfg: HeatmapConfig, size: real, timestamp: int, book: Book): Option<HeatmapColumn>
    requires size > 0.0
  {
    match (BestBid(book), BestAsk(book))
    case (Some(bid), Some(ask)) =>
      var mid := Midpoint(bid, ask);
      var w := ColumnWindow(cfg, size, mid);
      Some(HeatmapColumn(timestamp, w.FirstPrice(), size, mid, w.Totals(book.bids), w.Totals(book.asks)))
    case _ => None
  }

  datatype BinSize = Known(size: real) | NoMarket | NonPositive

  /** The configured size, or the automatic size of the first midpoint seen. */
  function ResolveBinSize(cfg: HeatmapConfig, resolved: Option<real>, book: Book): BinSize
    requires cfg.Valid()
  {
    if resolved.Some? then Known(resolved.value)
    else match (BestBid(book), BestAsk(book))
      case (Some(bid), Some(ask)) =>
        if Midpoint(bid, ask) <= 0.0 then NonPositive
        else Known(Resolve(RawBinSize(Midpoint(bid, ask), cfg.priceBinCount)))
      case _ => NoMarket
  }

  lemma {:induction false} ResolvedIsPositive(raw: real)
    requires raw > 0.0
    ensures Resolve(raw) > 0.0
  {
    ResolvedWithinAThird(raw);
  }

  // ---------- The unbounded history ----------

  type Columns = seq<HeatmapColumn>

  function Copy(c: HeatmapColumn, timestamp: int): HeatmapColumn {
    c.(timestamp := timestamp)
  }

  /** The newest column repeated, one bucket at a time, up to the bucket before `until`. */
  function CarryForward(h: Columns, until: int, bucket: int): Columns
    requires h != [] && bucket > 0
    decreases until - h[|h| - 1].timestamp
  {
    var last := h[|h| - 1];
    if last.timestamp + bucket >= until then h
    else CarryForward(h + [Copy(last, last.timestamp + bucket)], until, bucket)
  }

  /** A column replaces its own bucket's column; otherwise the gap is carried forward unless it was marked. */
  function Extend(h: Columns, carry: bool, c: HeatmapColumn, bucket: int): Columns
    requires bucket > 0
  {
    if h == [] then [c]
    else if c.timestamp == h[|h| - 1].timestamp then h[..|h| - 1] + [c]
    else if !carry then h + [c]
    else CarryForward(h, c.timestamp, bucket) + [c]
  }

  datatype HistoryState = HistoryState(
    columns: Columns, lastObservation: Option<int>, carryForward: bool, resolved: Option<real>)

  function Initial(cfg: HeatmapConfig): HistoryState {
    HistoryState([], None, true, cfg.priceBinSize)
  }

  predicate PositiveSize(s: HistoryState) {
    s.resolved.Some? ==> s.resolved.value > 0.0
  }

  function Accept(cfg: HeatmapConfig, s: HistoryState, size: real, timestamp: int, book: Book): (HistoryState, Outcome)
    requires cfg.Valid() && size > 0.0
  {
    match ColumnFor(cfg, size, BucketStart(timestamp, cfg.timeBucket), book)
    case None => (s.(lastObservation := Some(timestamp), resolved := Some(size)), NotSampled)
    case Some(c) =>
      (HistoryState(Extend(s.columns, s.carryForward, c, cfg.timeBucket), Some(timestamp), true, Some(size)), Sampled)
  }

  function Observe(cfg: HeatmapConfig, s: HistoryState, timestamp: int, book: Book): (HistoryState, Outcome)
    requires cfg.Valid() && PositiveSize(s)
  {
    if s.lastObservation.Some? && timestamp < s.lastObservation.value then (s, OutOfOrder)
    else match ResolveBinSize(cfg, s.resolved, book)
      case NoMarket => (s.(lastObservation := Some(timestamp)), NotSampled)
      case NonPositive => (s.(lastObservation := Some(timestamp)), BadMidpoint)
      case Known(size) =>
        ResolvedSizeIsPositive(cfg, s.resolved, book);
        Accept(cfg, s, size, timestamp, book)
  }

  lemma {:induction false} ResolvedSizeIsPositive(cfg: HeatmapConfig, resolved: Option<real>, book: Book)
    requires cfg.Valid() && (resolved.Some? ==> resolved.value > 0.0)
    requires ResolveBinSize(cfg, resolved, book).Known?
    ensures ResolveBinSize(cfg, resolved, book).size > 0.0
  {
    if resolved.None? {
      var mid := Midpoint(BestBid(book).value, BestAsk(book).value);
      ResolvedIsPositive(RawBinSize(mid, cfg.priceBinCount));
    }
  }

  lemma {:induction false} ResolvedSizeIsPositiveIfKnown(cfg: HeatmapConfig, resolved: Option<real>, book: Book)
    requires cfg.Valid() && (resolved.Some? ==> resolved.value > 0.0)
    ensures ResolveBinSize(cfg, resolved, book).Known? ==> ResolveBinSize(cfg, resolved, book).size > 0.0
  {
    if ResolveBinSize(cfg, resolved, book).Known? {
      ResolvedSizeIsPositive(cfg, resolved, book);
    }
  }

  /** What the bounded deque keeps of a history. */
  function Bound(cfg: HeatmapConfig, s: HistoryState): HistoryState {
    s.(columns := KeepLast(s.columns, cfg.maxColumns))
  }

  // ---------- Skipped buckets ----------

  /** `n` buckets. */
  function Buckets(n: nat, bucket: int): int {
    if n == 0 then 0 else Buckets(n - 1, bucket) + bucket
  }

  lemma {:induction false} BucketsIsProduct(n: nat, bucket: int)
    ensures Buckets(n, bucket) == bucket * n
  {
    if n > 0 {
      BucketsIsProduct(n - 1, bucket);
      assert bucket * n == bucket * (n - 1) + bucket;
    }
  }

  lemma {:induction false} BucketsAdd(m: nat, n: nat, bucket: int)
    ensures Buckets(m + n, bucket) == Buckets(m, bucket) + Buckets(n, bucket)
  {
    if n > 0 {
      BucketsAdd(m, n - 1, bucket);
    }
  }

  /** `n` copies of a column, one bucket apart, the first at `from`. */
  function Copies(c: HeatmapColumn, from: int, bucket: int, n: nat): (copies: Columns)
    ensures |copies| == n
    decreases n
  {
    if n == 0 then [] else [Copy(c, from)] + Copies(c, from + bucket, bucket, n - 1)
  }

  lemma {:induction false} CopiesOfCopy(c: HeatmapColumn, t: int, from: int, bucket: int, n: nat)
    ensures Copies(Copy(c, t), from, bucket, n) == Copies(c, from, bucket, n)
    decreases n
  {
    if n > 0 {
      CopiesOfCopy(c, t, from + bucket, bucket, n - 1);
    }
  }

  lemma {:induction false} CopiesAdd(c: HeatmapColumn, from: int, bucket: int, m: nat, n: nat)
    ensures Copies(c, from, bucket, m + n) == Copies(c, from, bucket, m) + Copies(c, from + Buckets(m, bucket),
      bucket, n)
    decreases m
  {
    if m > 0 {
      CopiesAdd(c, from + bucket, bucket, m - 1, n);
      assert from + bucket + Buckets(m - 1, bucket) == from + Buckets(m, bucket);
    }
  }

  lemma {:induction false} CopiesSnoc(c: HeatmapColumn, from: int, bucket: int, n: nat)
    ensures Copies(c, from, bucket, n + 1) == Copies(c, from, bucket, n) + [Copy(c, from + Buckets(n, bucket))]
  {
    CopiesAdd(c, from, bucket, n, 1);
  }

  lemma {:induction false} BucketsPositive(n: nat, bucket: int)
    requires bucket > 0
    ensures Buckets(n, bucket) >= 0 && (n > 0 ==> Buckets(n, bucket) >= bucket)
  {
    if n > 0 {
      BucketsPositive(n - 1, bucket);
    }
  }

  /** One bucket at a time gives as many copies as there are buckets in between. */
  lemma {:induction false} CarryForwardIsCopies(h: Columns, elapsed: nat, bucket: int)
    requires h != [] && bucket > 0 && elapsed > 0
    ensures var last := h[|h| - 1];
      CarryForward(h, last.timestamp + Buckets(elapsed, bucket), bucket)
        == h + Copies(last, last.timestamp + bucket, bucket, elapsed - 1)
    decreases elapsed
  {
    var last := h[|h| - 1];
    if elapsed > 1 {
      BucketsPositive(elapsed - 1, bucket);
      var next := Copy(last, last.timestamp + bucket);
      CarryForwardIsCopies(h + [next], elapsed - 1, bucket);
      CopiesOfCopy(last, next.timestamp, next.timestamp + bucket, bucket, elapsed - 2);
      assert h + [next] + Copies(next, next.timestamp + bucket, bucket, elapsed - 2)
          == h + ([next] + Copies(next, next.timestamp + bucket, bucket, elapsed - 2));
    } else {
      assert Buckets(1, bucket) == Buckets(0, bucket) + bucket;
      assert h + Copies(last, last.timestamp + bucket, bucket, 0) == h;
    }
  }

  function Elapsed(from: int, until: int, bucket: int): int
    requires bucket > 0
  {
    Quotient(until - from, bucket)
  }

  lemma {:induction false} ElapsedIsExact(from: int, until: int, bucket: int)
    requires bucket > 0 && Aligned(from, bucket) && Aligned(until, bucket) && from < until
    ensures Elapsed(from, until, bucket) >= 1
    ensures until == from + Buckets(Elapsed(from, until, bucket), bucket)
  {
    var gap := until - from;
    assert gap == bucket * (until / bucket - from / bucket);
    MultipleIsAligned(until / bucket - from / bucket, bucket);
    assert gap == bucket * (gap / bucket);
    BucketsIsProduct(gap / bucket, bucket);
  }

  lemma {:induction false} CarriedHistory(h: Columns, c: HeatmapColumn, bucket: int, elapsed: nat)
    requires h != [] && bucket > 0 && elapsed > 0
    requires c.timestamp == h[|h| - 1].timestamp + Buckets(elapsed, bucket)
    ensures Extend(h, true, c, bucket) == h + Copies(h[|h| - 1], h[|h| - 1].timestamp + bucket, bucket,
      elapsed - 1) + [c]
  {
    BucketsPositive(elapsed, bucket);
    CarryForwardIsCopies(h, elapsed, bucket);
  }

  /**
   Clearing the window and filling it with copies that end one bucket before the new
   column leaves exactly what carrying forward every skipped bucket would have left.
   */
  lemma {:induction false} RefillEqualsCarryingForward(
      h: Columns, c: HeatmapColumn, bucket: int, elapsed: nat, max: nat)
    requires h != [] && bucket > 0 && 0 < max <= elapsed
    requires c.timestamp == h[|h| - 1].timestamp + Buckets(elapsed, bucket)
    ensures KeepLast(Extend(h, true, c, bucket), max)
      == Copies(h[|h| - 1], c.timestamp - Buckets(max - 1, bucket), bucket, max - 1) + [c]
  {
    var last := h[|h| - 1];
    CarriedHistory(h, c, bucket, elapsed);
    RefillTail(last, c.timestamp, bucket, elapsed, max);
    KeepTail(
      h, Copies(last, last.timestamp + bucket, bucket, elapsed - max),
      Copies(last, c.timestamp - Buckets(max - 1, bucket), bucket, max - 1), c);
  }

  lemma {:induction false} RefillTail(last: HeatmapColumn, until: int, bucket: int, elapsed: nat, max: nat)
    requires 0 < max <= elapsed && until == last.timestamp + Buckets(elapsed, bucket)
    ensures Copies(last, last.timestamp + bucket, bucket, elapsed - 1)
      == Copies(last, last.timestamp + bucket, bucket, elapsed - max)
         + Copies(last, until - Buckets(max - 1, bucket), bucket, max - 1)
  {
    CopiesAdd(last, last.timestamp + bucket, bucket, elapsed - max, max - 1);
    BucketsAdd(elapsed - max + 1, max - 1, bucket);
  }

  lemma {:induction false} KeepTail<T>(a: seq<T>, b: seq<T>, t: seq<T>, c: T)
    ensures KeepLast(a + (b + t) + [c], |t| + 1) == t + [c]
  {
    assert a + (b + t) + [c] == (a + b) + (t + [c]);
  }

  /** Evicting as the window fills up makes no difference to what one more column leaves. */
  lemma {:induction false} ExtendWindow(h: Columns, carry: bool, c: HeatmapColumn, bucket: int, max: nat)
    requires bucket > 0 && max > 0
    requires h != [] ==> Aligned(h[|h| - 1].timestamp, bucket) && h[|h| - 1].timestamp <= c.timestamp
    requires Aligned(c.timestamp, bucket)
    ensures KeepLast(Extend(KeepLast(h, max), carry, c, bucket), max) == KeepLast(Extend(h, carry, c, bucket), max)
  {
    var kept := KeepLast(h, max);
    if h == [] {
    } else if c.timestamp == h[|h| - 1].timestamp {
      KeepLastSnoc(h[..|h| - 1], c, max);
      KeepLastSnoc(kept[..|kept| - 1], c, max);
    } else if !carry {
      KeepLastAppend(h, c, max);
    } else {
      ExtendWindowAcrossGap(h, c, bucket, max);
    }
  }

  lemma {:induction false} ExtendWindowAcrossGap(h: Columns, c: HeatmapColumn, bucket: int, max: nat)
    requires bucket > 0 && max > 0 && h != []
    requires Aligned(h[|h| - 1].timestamp, bucket) && h[|h| - 1].timestamp < c.timestamp && Aligned(c.timestamp, bucket)
    ensures KeepLast(Extend(KeepLast(h, max), true, c, bucket), max) == KeepLast(Extend(h, true, c, bucket), max)
  {
    var kept := KeepLast(h, max);
    var last := h[|h| - 1];
    assert kept[|kept| - 1] == last;
    var elapsed := Elapsed(last.timestamp, c.timestamp, bucket);
    ElapsedIsExact(last.timestamp, c.timestamp, bucket);
    CarriedHistory(h, c, bucket, elapsed);
    CarriedHistory(kept, c, bucket, elapsed);
    var copies := Copies(last, last.timestamp + bucket, bucket, elapsed - 1);
    KeepLastConcat(h, copies + [c], max);
    Reassociate(h, copies, [c]);
    Reassociate(kept, copies, [c]);
  }

  lemma {:induction false} Reassociate<T>(a: seq<T>, b: seq<T>, c: seq<T>)
    ensures a + b + c == a + (b + c)
  {}

  // ---------- The class ----------

  /** The newest column's bucket is not after the bucket of the newest observation. */
  predicate Chronological(cfg: HeatmapConfig, s: HistoryState)
    requires cfg.Valid()
  {
    && PositiveSize(s)
    && (s.columns != [] ==>
          && s.lastObservation.Some?
          && Aligned(s.columns[|s.columns| - 1].timestamp, cfg.timeBucket)
          && s.columns[|s.columns| - 1].timestamp <= BucketStart(s.lastObservation.value, cfg.timeBucket))
  }

  class HeatmapHistory {
    const config: HeatmapConfig
    var columns: Columns
    var lastObservation: Option<int>
    var carryForward: bool
    var resolved: Option<real>

    constructor (config: HeatmapConfig)
      requires config.Valid()
      ensures this.config == config && State() == Initial(config) && Valid()
    {
      this.config := config;
      columns, lastObservation, carryForward, resolved := [], None, true, config.priceBinSize;
    }

    function State(): HistoryState
      reads this
    {
      HistoryState(columns, lastObservation, carryForward, resolved)
    }

    ghost predicate Valid()
      reads this
    {
      config.Valid() && |columns| <= config.maxColumns && Chronological(config, State())
    }

    method Append(column: HeatmapColumn)
      requires config.maxColumns > 0 && |columns| <= config.maxColumns
      modifies this`columns
      ensures columns == KeepLast(old(columns) + [column], config.maxColumns)
    {
      if |columns| == config.maxColumns {
        columns := columns[1..];
      }
      columns := columns + [column];
    }

    method MakeColumn(size: real, timestamp: int, book: Book) returns (column: Option<HeatmapColumn>)
      requires Valid() && size > 0.0
      ensures column == ColumnFor(config, size, timestamp, book)
    {
      var bid, ask := BestBid(book), BestAsk(book);
      if bid.None? || ask.None? {
        return None;
      }
      var mid := Midpoint(bid.value, ask.value);
      var w := ColumnWindow(config, size, mid);
      var bids := new real[config.priceBinCount](_ => 0.0);
      var asks := new real[config.priceBinCount](_ => 0.0);
      AccumulateLevels(book.bids, w, bids);
      AccumulateLevels(book.asks, w, asks);
      assert bids[..] == w.Totals(book.bids);
      assert asks[..] == w.Totals(book.asks);
      return Some(HeatmapColumn(timestamp, w.FirstPrice(), size, mid, bids[..], asks[..]));
    }

    /** The fast path for a gap of at least the whole window: clear it and fill it with copies. */
    method Refill(carried: HeatmapColumn, until: int)
      requires config.Valid()
      modifies this`columns
      ensures columns == Copies(carried, until - Buckets(config.maxColumns - 1, config.timeBucket),
        config.timeBucket, config.maxColumns - 1)
    {
      columns := [];
      var max, bucket := config.maxColumns, config.timeBucket;
      var offset := max - 1;
      while offset > 0
        invariant 0 <= offset <= max - 1
        invariant columns == Copies(carried, until - Buckets(max - 1, bucket), bucket, max - 1 - offset)
      {
        BucketsIsProduct(offset, bucket);
        BucketsAdd(max - 1 - offset, offset, bucket);
        CopiesSnoc(carried, until - Buckets(max - 1, bucket), bucket, max - 1 - offset);
        columns := columns + [Copy(carried, until - bucket * offset)];
        offset := offset - 1;
      }
    }

    /** The other path: append every skipped bucket, with eviction. */
    method CarryGap(carried: HeatmapColumn, elapsed: nat)
      requires config.Valid() && |columns| <= config.maxColumns && elapsed > 0
      modifies this`columns
      ensures columns == KeepLast(
        old(columns) + Copies(carried, carried.timestamp + config.timeBucket, config.timeBucket, elapsed - 1),
          config.maxColumns)
    {
      var bucket := config.timeBucket;
      ghost var before := columns;
      var offset := 1;
      assert before + Copies(carried, carried.timestamp + bucket, bucket, 0) == before;
      while offset < elapsed
        invariant 1 <= offset <= elapsed
        invariant columns == KeepLast(before + Copies(carried, carried.timestamp + bucket, bucket, offset - 1),
          config.maxColumns)
      {
        ghost var copies := Copies(carried, carried.timestamp + bucket, bucket, offset - 1);
        BucketsIsProduct(offset, bucket);
        var gap := Copy(carried, carried.timestamp + bucket * offset);
        Append(gap);
        CopiesSnoc(carried, carried.timestamp + bucket, bucket, offset - 1);
        assert before + Copies(carried, carried.timestamp + bucket, bucket, offset) == before + copies + [gap];
        KeepLastAppend(before + copies, gap, config.maxColumns);
        offset := offset + 1;
      }
    }

    method AppendAcrossGap(column: HeatmapColumn)
      requires Valid() && columns != [] && Aligned(column.timestamp, config.timeBucket)
      requires columns[|columns| - 1].timestamp < column.timestamp
      modifies this`columns
      ensures columns == KeepLast(Extend(old(columns), true, column, config.timeBucket), config.maxColumns)
    {
      var carried := columns[|columns| - 1];
      var bucket, max := config.timeBucket, config.maxColumns;
      var elapsed := Quotient(column.timestamp - carried.timestamp, bucket);
      ElapsedIsExact(carried.timestamp, column.timestamp, bucket);
      if elapsed >= max {
        RefillEqualsCarryingForward(columns, column, bucket, elapsed, max);
        Refill(carried, column.timestamp);
      } else {
        CarriedHistory(columns, column, bucket, elapsed);
        KeepLastAppend(columns + Copies(carried, carried.timestamp + bucket, bucket, elapsed - 1), column, max);
        CarryGap(carried, elapsed);
      }
      Append(column);
    }

    method Place(column: HeatmapColumn)
      requires Valid() && lastObservation.Some?
      requires column.timestamp == BucketStart(lastObservation.value, config.timeBucket)
      modifies this`columns, this`carryForward
      ensures carryForward && Valid()
      ensures columns == KeepLast(Extend(old(columns), old(carryForward), column, config.timeBucket), config.maxColumns)
    {
      BucketStartIsFloor(lastObservation.value, config.timeBucket);
      if columns == [] {
        Append(column);
      } else if column.timestamp == columns[|columns| - 1].timestamp {
        columns := columns[|columns| - 1 := column];
      } else if column.timestamp < columns[|columns| - 1].timestamp {
        assert false;
      } else if !carryForward {
        Append(column);
      } else {
        AppendAcrossGap(column);
      }
      carryForward := true;
    }

    method Sample(timestamp: int, book: Book) returns (outcome: Outcome)
      requires Valid()
      modifies this
      ensures Valid()
      ensures State() == Bound(config, Observe(config, old(State()), timestamp, book).0)
      ensures outcome == Observe(config, old(State()), timestamp, book).1
    {
      if lastObservation.Some? && timestamp < lastObservation.value {
        return OutOfOrder;
      }
      if lastObservation.Some? {
        BucketStartMonotone(lastObservation.value, timestamp, config.timeBucket);
      }
      ResolvedSizeIsPositiveIfKnown(config, resolved, book);
      lastObservation := Some(timestamp);
      if resolved.None? {
        var bid, ask := BestBid(book), BestAsk(book);
        if bid.None? || ask.None? {
          return NotSampled;
        }
        var size := AutomaticPriceBinSize(Midpoint(bid.value, ask.value), config.priceBinCount);
        if size.Failure? {
          return BadMidpoint;
        }
        resolved := Some(size.value);
      }
      var column := MakeColumn(resolved.value, BucketStart(timestamp, config.timeBucket), book);
      if column.None? {
        return NotSampled;
      }
      Place(column.value);
      return Sampled;
    }

    method MarkDiscontinuity()
      requires Valid()
      modifies this`carryForward
      ensures Valid() && State() == old(State()).(carryForward := false)
    {
      carryForward := false;
    }

    method Clear()
      requires Valid()
      modifies this
      ensures Valid() && State() == Initial(config)
    {
      columns, lastObservation, carryForward, resolved := [], None, true, config.priceBinSize;
    }
  }

  // ---------- Whole runs ----------

  datatype Call = SampleCall(timestamp: int, book: Book) | DiscontinuityCall | ClearCall

  /** One call on the unbounded history. */
  function Step(cfg: HeatmapConfig, s: HistoryState, call: Call): HistoryState
    requires cfg.Valid() && PositiveSize(s)
  {
    match call
    case SampleCall(timestamp, book) => Observe(cfg, s, timestamp, book).0
    case DiscontinuityCall => s.(carryForward := false)
    case ClearCall => Initial(cfg)
  }

  lemma {:induction false} StepKeepsPositiveSize(cfg: HeatmapConfig, s: HistoryState, call: Call)
    requires cfg.Valid() && PositiveSize(s)
    ensures PositiveSize(Step(cfg, s, call))
  {
    if call.SampleCall? {
      ResolvedSizeIsPositiveIfKnown(cfg, s.resolved, call.book);
    }
  }

  /** Everything ever made, without a bound. */
  function History(cfg: HeatmapConfig, calls: seq<Call>): (s: HistoryState)
    requires cfg.Valid()
    ensures PositiveSize(s)
  {
    if calls == [] then Initial(cfg)
    else
      var s := History(cfg, calls[..|calls| - 1]);
      StepKeepsPositiveSize(cfg, s, calls[|calls| - 1]);
      Step(cfg, s, calls[|calls| - 1])
  }

  /** What the class holds: bounded after every call. */
  function Rolling(cfg: HeatmapConfig, calls: seq<Call>): (s: HistoryState)
    requires cfg.Valid()
    ensures PositiveSize(s)
  {
    if calls == [] then Initial(cfg)
    else
      var s := Rolling(cfg, calls[..|calls| - 1]);
      StepKeepsPositiveSize(cfg, s, calls[|calls| - 1]);
      Bound(cfg, Step(cfg, s, calls[|calls| - 1]))
  }

  lemma {:induction false} StepKeepsChronology(cfg: HeatmapConfig, s: HistoryState, call: Call)
    requires cfg.Valid() && Chronological(cfg, s)
    ensures Chronological(cfg, Step(cfg, s, call))
  {
    StepKeepsPositiveSize(cfg, s, call);
    if call.SampleCall? {
      BucketStartIsFloor(call.timestamp, cfg.timeBucket);
      if s.lastObservation.Some? && s.lastObservation.value <= call.timestamp {
        BucketStartMonotone(s.lastObservation.value, call.timestamp, cfg.timeBucket);
      }
    }
  }

  lemma {:induction false} HistoryIsChronological(cfg: HeatmapConfig, calls: seq<Call>)
    requires cfg.Valid()
    ensures Chronological(cfg, History(cfg, calls))
  {
    if calls != [] {
      HistoryIsChronological(cfg, calls[..|calls| - 1]);
      StepKeepsChronology(cfg, History(cfg, calls[..|calls| - 1]), calls[|calls| - 1]);
    }
  }

  lemma {:induction false} BoundCommutes(cfg: HeatmapConfig, s: HistoryState, call: Call)
    requires cfg.Valid() && Chronological(cfg, s)
    ensures Bound(cfg, Step(cfg, Bound(cfg, s), call)) == Bound(cfg, Step(cfg, s, call))
  {
    KeepLastShort(s.columns, cfg.maxColumns);
    if call.SampleCall? && Observe(cfg, s, call.timestamp, call.book).1 == Sampled {
      var timestamp, book := call.timestamp, call.book;
      BucketStartIsFloor(timestamp, cfg.timeBucket);
      if s.lastObservation.Some? {
        BucketStartMonotone(s.lastObservation.value, timestamp, cfg.timeBucket);
      }
      ResolvedSizeIsPositiveIfKnown(cfg, s.resolved, book);
      var c := ColumnFor(cfg, ResolveBinSize(cfg, s.resolved, book).size, BucketStart(timestamp, cfg.timeBucket),
        book).value;
      ExtendWindow(s.columns, s.carryForward, c, cfg.timeBucket, cfg.maxColumns);
    }
  }

  /** After any run of calls the window is exactly the last `maxColumns` entries of the unbounded history. */
  lemma {:induction false} RollingIsLastColumns(cfg: HeatmapConfig, calls: seq<Call>)
    requires cfg.Valid()
    ensures Rolling(cfg, calls) == Bound(cfg, History(cfg, calls))
  {
    if calls != [] {
      var before := calls[..|calls| - 1];
      RollingIsLastColumns(cfg, before);
      HistoryIsChronological(cfg, before);
      BoundCommutes(cfg, History(cfg, before), calls[|calls| - 1]);
    }
  }

  // ---------- Spacing of the columns ----------

  /** The positions of the columns that were first added across a marked discontinuity. */
  function NextMarked(cfg: HeatmapConfig, s: HistoryState, marked: set<nat>, call: Call): set<nat>
    requires cfg.Valid() && PositiveSize(s)
  {
    match call
    case ClearCall => {}
    case DiscontinuityCall => marked
    case SampleCall(timestamp, book) =>
      if !s.carryForward && |s.columns| > 0 && |Step(cfg, s, call).columns| > |s.columns| then marked + {|s.columns|}
      else marked
  }

  function Marked(cfg: HeatmapConfig, calls: seq<Call>): set<nat>
    requires cfg.Valid()
  {
    if calls == [] then {}
    else
      var before := calls[..|calls| - 1];
      NextMarked(cfg, History(cfg, before), Marked(cfg, before), calls[|calls| - 1])
  }

  predicate Follows(a: HeatmapColumn, b: HeatmapColumn, bucket: int, marked: bool) {
    a.timestamp + bucket <= b.timestamp && (marked || b.timestamp == a.timestamp + bucket)
  }

  /** Bucket multiples, strictly increasing, one bucket apart except at marked positions. */
  predicate Spaced(h: Columns, bucket: int, marked: set<nat>)
    requires bucket > 0
  {
    && (forall i :: 0 <= i < |h| ==> Aligned(h[i].timestamp, bucket))
    && (forall i, j :: 0 <= i < |h| && i < j < |h| && j == i + 1 ==> Follows(h[i], h[j], bucket, j in marked))
  }

  lemma {:induction false} SpacedSnoc(h: Columns, c: HeatmapColumn, bucket: int, marked: set<nat>)
    requires bucket > 0 && h != [] && Spaced(h, bucket, marked) && Aligned(c.timestamp, bucket)
    requires h[|h| - 1].timestamp + bucket <= c.timestamp
    requires |h| in marked || c.timestamp == h[|h| - 1].timestamp + bucket
    ensures Spaced(h + [c], bucket, marked)
  {}

  lemma {:induction false} CarryForwardIsSpaced(h: Columns, until: int, bucket: int, marked: set<nat>)
    requires bucket > 0 && h != [] && Spaced(h, bucket, marked)
    requires Aligned(until, bucket) && h[|h| - 1].timestamp < until
    ensures var carried := CarryForward(h, until, bucket);
      carried != [] && Spaced(carried, bucket, marked) && carried[|carried| - 1].timestamp + bucket == until
    decreases until - h[|h| - 1].timestamp
  {
    var last := h[|h| - 1];
    NextAligned(last.timestamp, until, bucket);
    if last.timestamp + bucket < until {
      var next := Copy(last, last.timestamp + bucket);
      SpacedSnoc(h, next, bucket, marked);
      CarryForwardIsSpaced(h + [next], until, bucket, marked);
    }
  }

  lemma {:induction false} ExtendIsSpaced(h: Columns, carry: bool, c: HeatmapColumn, bucket: int, marked: set<nat>)
    requires bucket > 0 && Spaced(h, bucket, marked) && Aligned(c.timestamp, bucket)
    requires h != [] ==> h[|h| - 1].timestamp <= c.timestamp
    ensures var next := Extend(h, carry, c, bucket);
      Spaced(next, bucket, if !carry && |h| > 0 && |next| > |h| then marked + {|h|} else marked)
  {
    if h != [] && c.timestamp != h[|h| - 1].timestamp {
      if carry {
        CarryForwardIsSpaced(h, c.timestamp, bucket, marked);
      } else {
        NextAligned(h[|h| - 1].timestamp, c.timestamp, bucket);
      }
    }
  }

  lemma {:induction false} HistoryIsSpaced(cfg: HeatmapConfig, calls: seq<Call>)
    requires cfg.Valid()
    ensures Spaced(History(cfg, calls).columns, cfg.timeBucket, Marked(cfg, calls))
  {
    if calls != [] {
      var before, call := calls[..|calls| - 1], calls[|calls| - 1];
      var s := History(cfg, before);
      HistoryIsSpaced(cfg, before);
      HistoryIsChronological(cfg, before);
      if call.SampleCall? && Observe(cfg, s, call.timestamp, call.book).1 == Sampled {
        BucketStartIsFloor(call.timestamp, cfg.timeBucket);
        if s.lastObservation.Some? {
          BucketStartMonotone(s.lastObservation.value, call.timestamp, cfg.timeBucket);
        }
        ResolvedSizeIsPositiveIfKnown(cfg, s.resolved, call.book);
        var size := ResolveBinSize(cfg, s.resolved, call.book).size;
        var c := ColumnFor(cfg, size, BucketStart(call.timestamp, cfg.timeBucket), call.book).value;
        ExtendIsSpaced(s.columns, s.carryForward, c, cfg.timeBucket, Marked(cfg, before));
      }
    }
  }

  /** The same for a window of it; positions count from the start of the whole history. */
  predicate SpacedWithin(w: Columns, all: Columns, bucket: int, marked: set<nat>)
    requires bucket > 0
  {
    && |w| <= |all| && w == all[|all| - |w|..]
    && (forall i :: 0 <= i < |w| ==> Aligned(w[i].timestamp, bucket))
    && (forall i, j :: 0 <= i < |w| && i < j < |w| && j == i + 1 ==>
          Follows(w[i], w[j], bucket, |all| - |w| + j in marked))
  }

  lemma {:induction false} SuffixIsSpaced(all: Columns, n: nat, bucket: int, marked: set<nat>)
    requires bucket > 0 && Spaced(all, bucket, marked)
    ensures SpacedWithin(KeepLast(all, n), all, bucket, marked)
  {
    var w := KeepLast(all, n);
    var dropped := |all| - |w|;
    forall i | 0 <= i < |w| ensures Aligned(w[i].timestamp, bucket) {
      assert w[i] == all[dropped + i];
    }
    forall i, j | 0 <= i < j < |w| && j == i + 1 ensures Follows(w[i], w[j], bucket, dropped + j in marked) {
      assert w[i] == all[dropped + i] && w[j] == all[dropped + j];
    }
  }

  lemma {:induction false} WindowIsSpaced(cfg: HeatmapConfig, calls: seq<Call>)
    requires cfg.Valid()
    ensures |Rolling(cfg, calls).columns| <= cfg.maxColumns
    ensures SpacedWithin(Rolling(cfg, calls).columns, History(cfg, calls).columns, cfg.timeBucket, Marked(cfg, calls))
  {
    RollingIsLastColumns(cfg, calls);
    HistoryIsSpaced(cfg, calls);
    SuffixIsSpaced(History(cfg, calls).columns, cfg.maxColumns, cfg.timeBucket, Marked(cfg, calls));
  }

  // ---------- What a discontinuity mark changes ----------

  lemma {:induction false} CarryForwardGrows(h: Columns, until: int, bucket: int)
    requires h != [] && bucket > 0
    ensures |CarryForward(h, until, bucket)| >= |h|
    ensures h[|h| - 1].timestamp + bucket < until ==> |CarryForward(h, until, bucket)| > |h|
    decreases until - h[|h| - 1].timestamp
  {
    var last := h[|h| - 1];
    if last.timestamp + bucket < until {
      CarryForwardGrows(h + [Copy(last, last.timestamp + bucket)], until, bucket);
    }
  }

  /** At least one whole bucket lies between the newest column's and the new one's. */
  predicate Skips(h: Columns, c: HeatmapColumn, bucket: int) {
    h != [] && h[|h| - 1].timestamp + bucket < c.timestamp
  }

  lemma {:induction false} CarryMattersIff(h: Columns, carry: bool, c: HeatmapColumn, bucket: int)
    requires bucket > 0
    ensures Extend(h, carry, c, bucket) == Extend(h, false, c, bucket) <==> !(carry && Skips(h, c, bucket))
  {
    if h != [] {
      CarryForwardGrows(h, c.timestamp, bucket);
    }
  }

  lemma {:induction false} SampledAlike(cfg: HeatmapConfig, s: HistoryState, timestamp: int, book: Book)
    requires cfg.Valid() && PositiveSize(s) && Observe(cfg, s, timestamp, book).1 == Sampled
    ensures ColumnOf(cfg, s, timestamp, book).Some?
    ensures var c := ColumnOf(cfg, s, timestamp, book).value;
      && c.timestamp == BucketStart(timestamp, cfg.timeBucket)
      && Observe(cfg, s, timestamp, book).0.columns == Extend(s.columns, s.carryForward, c, cfg.timeBucket)
      && Observe(cfg, s.(carryForward := false), timestamp, book).0
        == Observe(cfg, s, timestamp, book).0.(columns := Extend(s.columns, false, c, cfg.timeBucket))
  {
    ResolvedSizeIsPositive(cfg, s.resolved, book);
  }

  /** The column a sample of the book makes, at the size in force or just resolved. */
  function ColumnOf(cfg: HeatmapConfig, s: HistoryState, timestamp: int, book: Book): Option<HeatmapColumn>
    requires cfg.Valid() && PositiveSize(s)
  {
    match ResolveBinSize(cfg, s.resolved, book)
    case Known(size) =>
      ResolvedSizeIsPositive(cfg, s.resolved, book);
      ColumnFor(cfg, size, BucketStart(timestamp, cfg.timeBucket), book)
    case _ => None
  }

  lemma {:induction false} HistoryOfMarked(cfg: HeatmapConfig, calls: seq<Call>, sample: Call)
    requires cfg.Valid()
    ensures History(cfg, calls + [sample]) == Step(cfg, History(cfg, calls), sample)
    ensures History(cfg, calls + [DiscontinuityCall, sample])
      == Step(cfg, History(cfg, calls).(carryForward := false), sample)
  {
    var marked := calls + [DiscontinuityCall];
    assert (calls + [sample])[..|calls|] == calls && marked[..|calls|] == calls;
    assert (marked + [sample])[..|marked|] == marked;
    assert calls + [DiscontinuityCall, sample] == marked + [sample];
  }

  /**
   A mark just before a sample changes the history if and only if the gap would have
   been carried forward and the sample skips a bucket. In particular a sample in the
   newest column's own bucket still replaces that column by its own.
   */
  lemma {:induction false} MarkMattersIff(cfg: HeatmapConfig, calls: seq<Call>, timestamp: int, book: Book)
    requires cfg.Valid() && Observe(cfg, History(cfg, calls), timestamp, book).1 == Sampled
    ensures ColumnOf(cfg, History(cfg, calls), timestamp, book).Some?
    ensures var s, c := History(cfg, calls), ColumnOf(cfg, History(cfg, calls), timestamp, book).value;
      var marked := History(cfg, calls + [DiscontinuityCall, SampleCall(timestamp, book)]);
      var unmarked := History(cfg, calls + [SampleCall(timestamp, book)]);
      && (marked == unmarked <==> !(s.carryForward && Skips(s.columns, c, cfg.timeBucket)))
      && marked == unmarked.(columns := marked.columns)
      && (s.columns != [] && s.columns[|s.columns| - 1].timestamp == c.timestamp ==>
            marked.columns == s.columns[..|s.columns| - 1] + [c])
      && (Skips(s.columns, c, cfg.timeBucket) ==> marked.columns == s.columns + [c])
  {
    var s := History(cfg, calls);
    SampledAlike(cfg, s, timestamp, book);
    CarryMattersIff(s.columns, s.carryForward, ColumnOf(cfg, s, timestamp, book).value, cfg.timeBucket);
    HistoryOfMarked(cfg, calls, SampleCall(timestamp, book));
  }
}
