/**
 What one sample leaves in the window, said without the functions that compute it: the
 new column against its book, the skipped buckets, and when a sample is refused.
 */
module HeatmapColumns {
  import opened Wrappers
  import opened OrderBooks
  import opened PriceBins
  import opened AutomaticBinSize
  import opened HeatmapHistories

  /** The levels from the first price up to the end price whose stable bin is `bin`. */
  function LevelsInBin(levels: Side, first: int, count: nat, size: real, epsilon: real, bin: int): (ps: set<real>)
    requires size > 0.0
    ensures ps <= levels.Keys
  {
    set p | p in levels.Keys && first as real * size <= p < (first + count) as real * size
      && StableFloor(p / size, epsilon) == bin
  }

  /** Bin `i` of the vector holds the quantities of the side's levels in that bin, and of no other. */
  predicate Bins(quantities: seq<real>, levels: Side, cfg: HeatmapConfig, size: real, first: int)
    requires size > 0.0
  {
    && |quantities| == cfg.priceBinCount
    && forall i :: 0 <= i < |quantities| ==>
         quantities[i]
           == SumOver(levels, LevelsInBin(levels, first, cfg.priceBinCount, size, cfg.epsilon, first + i))
  }

  lemma {:induction false} BinIsLevels(cfg: HeatmapConfig, size: real, first: int, levels: Side, i: int)
    requires size > 0.0
    ensures Window(first, size, cfg.priceBinCount, cfg.epsilon).InBin(levels, i)
      == LevelsInBin(levels, first, cfg.priceBinCount, size, cfg.epsilon, first + i)
  {
    EndOfWindow(Window(first, size, cfg.priceBinCount, cfg.epsilon));
  }

  lemma {:induction false} TotalsAreBins(cfg: HeatmapConfig, size: real, first: int, levels: Side)
    requires size > 0.0
    ensures Bins(Window(first, size, cfg.priceBinCount, cfg.epsilon).Totals(levels), levels, cfg, size, first)
  {
    var totals := Window(first, size, cfg.priceBinCount, cfg.epsilon).Totals(levels);
    forall i | 0 <= i < |totals|
      ensures totals[i]
        == SumOver(levels, LevelsInBin(levels, first, cfg.priceBinCount, size, cfg.epsilon, first + i))
    {
      BinIsLevels(cfg, size, first, levels, i);
    }
  }

  /**
   There is a column exactly when both sides have levels. Its midpoint is halfway between
   the best prices, its centre bin is the midpoint's stable bin, and each vector holds the
   levels of its own side.
   */
  lemma {:induction false} ColumnShowsItsBook(cfg: HeatmapConfig, size: real, timestamp: int, book: Book)
    requires size > 0.0
    ensures ColumnFor(cfg, size, timestamp, book).Some? <==> book.bids != map[] && book.asks != map[]
    ensures ColumnFor(cfg, size, timestamp, book).Some? ==>
      var c := ColumnFor(cfg, size, timestamp, book).value;
      var first := StableFloor(c.midPrice / size, cfg.epsilon) - cfg.priceBinCount / 2;
      && c.timestamp == timestamp && c.priceBinSize == size && c.firstPrice == first as real * size
      && (forall bid, ask :: IsBest(bid, ask, book) ==> c.midPrice - bid == ask - c.midPrice)
      && Bins(c.bids, book.bids, cfg, size, first) && Bins(c.asks, book.asks, cfg, size, first)
  {
    assert book.bids.Keys == {} <==> book.bids == map[];
    assert book.asks.Keys == {} <==> book.asks == map[];
    if ColumnFor(cfg, size, timestamp, book).Some? {
      var first := StableFloor(ColumnFor(cfg, size, timestamp, book).value.midPrice / size, cfg.epsilon)
        - cfg.priceBinCount / 2;
      TotalsAreBins(cfg, size, first, book.bids);
      TotalsAreBins(cfg, size, first, book.asks);
    }
  }

  /** The highest bid and the lowest ask of the book. */
  predicate IsBest(bid: real, ask: real, book: Book) {
    && bid in book.bids && (forall p :: p in book.bids ==> p <= bid)
    && ask in book.asks && (forall p :: p in book.asks ==> ask <= p)
  }

  // ---------- What a sample adds ----------

  /** The same column at another time. */
  predicate Repeats(c: HeatmapColumn, of: HeatmapColumn) {
    && c.firstPrice == of.firstPrice && c.priceBinSize == of.priceBinSize && c.midPrice == of.midPrice
    && c.bids == of.bids && c.asks == of.asks
  }

  /** Every column but the last is an old one, or repeats the newest old one in a later bucket. */
  predicate CarriesOn(h: Columns, next: Columns, bucket: int) {
    && h != [] && h <= next
    && forall i :: |h| <= i < |next| ==>
         Repeats(next[i], h[|h| - 1]) && next[i].timestamp == h[|h| - 1].timestamp + bucket * (i - |h| + 1)
  }

  lemma {:induction false} CarryForwardRepeats(h: Columns, until: int, bucket: int)
    requires h != [] && bucket > 0 && h[|h| - 1].timestamp < until
    ensures var next := CarryForward(h, until, bucket);
      CarriesOn(h, next, bucket) && next[|next| - 1].timestamp < until <= next[|next| - 1].timestamp + bucket
    decreases until - h[|h| - 1].timestamp
  {
    var last := h[|h| - 1];
    if last.timestamp + bucket < until {
      var more := h + [Copy(last, last.timestamp + bucket)];
      CarryForwardRepeats(more, until, bucket);
      var next := CarryForward(more, until, bucket);
      forall i | |h| <= i < |next|
        ensures Repeats(next[i], last) && next[i].timestamp == last.timestamp + bucket * (i - |h| + 1)
      {
        if i == |h| {
          assert next[i] == more[i];
        } else {
          assert bucket * (i - |more| + 1) + bucket == bucket * (i - |h| + 1);
        }
      }
      assert h <= next;
    }
  }

  /**
   A sample that makes a column: it replaces the newest column of its own bucket; after a
   mark it is simply added; otherwise every skipped bucket repeats the newest column first.
   */
  lemma {:induction false} SampleExtends(cfg: HeatmapConfig, s: HistoryState, timestamp: int, book: Book)
    requires cfg.Valid() && PositiveSize(s) && Observe(cfg, s, timestamp, book).1 == Sampled
    ensures ColumnOf(cfg, s, timestamp, book).Some?
    ensures var c, next := ColumnOf(cfg, s, timestamp, book).value, Observe(cfg, s, timestamp, book).0;
      && next.columns != [] && next.columns[|next.columns| - 1] == c && next.carryForward
      && next.lastObservation == Some(timestamp) && next.resolved == Some(c.priceBinSize)
      && (s.resolved.Some? ==> next.resolved == s.resolved)
      && (s.columns == [] ==> next.columns == [c])
      && (s.columns != [] ==>
            var last := s.columns[|s.columns| - 1];
            && (c.timestamp == last.timestamp ==> next.columns == s.columns[|s.columns| - 1 := c])
            && (c.timestamp != last.timestamp && !s.carryForward ==> next.columns == s.columns + [c])
            && (c.timestamp > last.timestamp && s.carryForward ==>
                  var before := next.columns[..|next.columns| - 1];
                  && CarriesOn(s.columns, before, cfg.timeBucket)
                  && before[|before| - 1].timestamp < c.timestamp
                     <= before[|before| - 1].timestamp + cfg.timeBucket))
  {
    ResolvedSizeIsPositive(cfg, s.resolved, book);
    SampledAlike(cfg, s, timestamp, book);
    var c := ColumnOf(cfg, s, timestamp, book).value;
    var next := Observe(cfg, s, timestamp, book).0;
    if s.columns != [] && c.timestamp > s.columns[|s.columns| - 1].timestamp && s.carryForward {
      CarryForwardRepeats(s.columns, c.timestamp, cfg.timeBucket);
      assert next.columns[..|next.columns| - 1] == CarryForward(s.columns, c.timestamp, cfg.timeBucket);
    }
  }

  /**
   When a sample makes no column: it is older than the newest observation, or it has no
   market, or an automatic size finds the midpoint not positive. Only the first leaves no
   trace; the others count as observations, and none of them touches the columns.
   */
  lemma {:induction false} SampleOutcomes(cfg: HeatmapConfig, s: HistoryState, timestamp: int, book: Book)
    requires cfg.Valid() && PositiveSize(s)
    ensures var (next, outcome) := Observe(cfg, s, timestamp, book);
      var late := s.lastObservation.Some? && timestamp < s.lastObservation.value;
      var market := book.bids != map[] && book.asks != map[];
      && (outcome == OutOfOrder <==> late)
      && (outcome == NotSampled <==> !late && !market)
      && (outcome == BadMidpoint <==>
            !late && market && s.resolved.None?
            && exists bid, ask :: IsBest(bid, ask, book) && bid + ask <= 0.0)
      && (outcome == OutOfOrder ==> next == s)
      && (outcome != OutOfOrder ==> next.lastObservation == Some(timestamp))
      && (outcome != Sampled ==> next.columns == s.columns && next.carryForward == s.carryForward)
  {
    assert book.bids.Keys == {} <==> book.bids == map[];
    assert book.asks.Keys == {} <==> book.asks == map[];
    ResolvedSizeIsPositiveIfKnown(cfg, s.resolved, book);
    if book.bids != map[] && book.asks != map[] {
      var bid, ask := Highest(book.bids.Keys), Lowest(book.asks.Keys);
      assert IsBest(bid, ask, book);
      forall b, a | IsBest(b, a, book) ensures b == bid && a == ask {
        assert bid in book.bids && ask in book.asks;
      }
    }
  }

  // ---------- The automatic bin size ----------

  lemma {:induction false} ResolvedAutomatically(cfg: HeatmapConfig, s: HistoryState, timestamp: int, book: Book)
    requires cfg.Valid() && s.resolved.None? && Observe(cfg, s, timestamp, book).1 == Sampled
    ensures ColumnOf(cfg, s, timestamp, book).Some?
    ensures var c := ColumnOf(cfg, s, timestamp, book).value;
      c.midPrice > 0.0 && c.priceBinSize == Resolve(RawBinSize(c.midPrice, cfg.priceBinCount))
  {
    SampledAlike(cfg, s, timestamp, book);
  }

  /** All bins together span the wanted fraction of the midpoint, up to a third. */
  predicate SpanFits(midpoint: real, size: real, bins: nat) {
    var wanted := midpoint * SPAN_FRACTION;
    2.0 * wanted <= 3.0 * (size * bins as real) <= 4.0 * wanted
  }

  lemma {:induction false} SpanHasSize(midpoint: real, bins: nat, size: real)
    requires midpoint > 0.0 && bins > 0 && size == Resolve(RawBinSize(midpoint, bins))
    ensures SpanFits(midpoint, size, bins)
  {
    SpanWithinAThird(midpoint, bins, RawBinSize(midpoint, bins));
  }

  /** Without a configured size, the first column's bins span the wanted fraction of its midpoint, up to a third. */
  lemma {:induction false} AutomaticColumnSpan(cfg: HeatmapConfig, s: HistoryState, timestamp: int, book: Book)
    requires cfg.Valid() && s.resolved.None? && Observe(cfg, s, timestamp, book).1 == Sampled
    ensures ColumnOf(cfg, s, timestamp, book).Some?
    ensures var c := ColumnOf(cfg, s, timestamp, book).value;
      SpanFits(c.midPrice, c.priceBinSize, cfg.priceBinCount)
  {
    ResolvedAutomatically(cfg, s, timestamp, book);
    var c := ColumnOf(cfg, s, timestamp, book).value;
    SpanHasSize(c.midPrice, cfg.priceBinCount, c.priceBinSize);
  }
}
