/**
 The best prices of the numeric book. Conversion to doubles may merge prices; as long
 as it keeps their order and no quantity vanishes, the best ones are still the images
 of the best exact prices, in every event of every run.
 */
module KrakenBestPrices {
  import opened Wrappers
  import opened Decimals
  import opened OrderBooks
  import opened SortedLevels
  import opened Truncation
  import opened KrakenLevels
  import opened KrakenBook
  import opened KrakenOutputs
  import opened KrakenAdapter

  // ---------- Best prices of the numeric book ----------

  /** The entry is filed under the canonical form of its own wire price, and its quantity is not zero. */
  predicate Filed(e: KrakenLevels.Entry) {
    && IsDecimal(e.wire.price) && e.key == Canonical(e.wire.price)
    && IsDecimal(e.wire.quantity) && Value(e.wire.quantity) != 0.0
  }

  predicate FiledByPrice(es: LevelMap) {
    forall i :: 0 <= i < |es| ==> Filed(es[i])
  }

  lemma {:induction false} FiledCons(e: KrakenLevels.Entry, rest: LevelMap)
    requires Filed(e) && FiledByPrice(rest)
    ensures FiledByPrice([e] + rest)
  {}

  lemma {:induction false} InsertKeepsFiling(es: LevelMap, price: string, quantity: string)
    requires FiledByPrice(es) && IsDecimal(price) && IsDecimal(quantity) && Value(quantity) != 0.0
    ensures FiledByPrice(Insert(es, Canonical(price), WireLevel(price, quantity)))
  {
    var key, wire := Canonical(price), WireLevel(price, quantity);
    if es == [] || ExactDecimalLess(key, es[0].key) {
      FiledCons(KrakenLevels.Entry(key, wire), es);
    } else if ExactDecimalLess(es[0].key, key) {
      InsertKeepsFiling(es[1..], price, quantity);
      FiledCons(es[0], Insert(es[1..], key, wire));
    } else {
      SameKey(es[0].wire.price, price);
      FiledCons(KrakenLevels.Entry(es[0].key, wire), es[1..]);
    }
  }

  /** Neither canonical text is less than the other only when they are the same text. */
  lemma {:induction false} SameKey(a: string, b: string)
    requires IsDecimal(a) && IsDecimal(b)
    requires !ExactDecimalLess(Canonical(a), Canonical(b)) && !ExactDecimalLess(Canonical(b), Canonical(a))
    ensures Canonical(a) == Canonical(b)
  {
    CanonicalPreservesValue(a);
    CanonicalPreservesValue(b);
    ExactDecimalLessIsValueOrder(Canonical(a), Canonical(b));
    ExactDecimalLessIsValueOrder(Canonical(b), Canonical(a));
    CanonicalUnique(Canonical(a), Canonical(b));
  }

  lemma {:induction false} RemoveKeepsFiling(es: LevelMap, key: string)
    requires FiledByPrice(es)
    ensures FiledByPrice(Remove(es, key))
  {
    if es != [] {
      RemoveKeepsFiling(es[1..], key);
    }
  }

  lemma {:induction false} ChangesKeepFiling(es: LevelMap, cs: seq<Change>)
    requires FiledByPrice(es) && ValidChanges(cs)
    ensures FiledByPrice(ApplyChanges(es, cs))
  {
    if cs != [] {
      var n := |cs| - 1;
      ChangesKeepFiling(es, cs[..n]);
      if Deletes(cs[n]) {
        RemoveKeepsFiling(ApplyChanges(es, cs[..n]), Canonical(cs[n].price));
      } else {
        InsertKeepsFiling(ApplyChanges(es, cs[..n]), cs[n].price, cs[n].quantity);
      }
    }
  }

  lemma {:induction false} KeptIsFiled(es: LevelMap, depth: nat)
    requires FiledByPrice(es)
    ensures FiledByPrice(KeepFirst(es, depth)) && FiledByPrice(KeepLast(es, depth))
  {}

  lemma {:induction false} BatchKeepsFiling(s: Sides, b: Batch, depth: nat)
    requires FiledByPrice(s.bids) && FiledByPrice(s.asks) && ValidBatch(b)
    ensures FiledByPrice(ApplyBatch(s, b, depth).bids) && FiledByPrice(ApplyBatch(s, b, depth).asks)
  {
    var from := if b.snapshot then NO_LEVELS else s;
    ChangesKeepFiling(from.bids, b.bids);
    ChangesKeepFiling(from.asks, b.asks);
    KeptIsFiled(ApplyChanges(from.bids, b.bids), depth);
    KeptIsFiled(ApplyChanges(from.asks, b.asks), depth);
  }

  /** What every replay keeps. */
  lemma {:induction false} ReplayIsFiledByPrice(bs: seq<Batch>, depth: nat)
    requires ValidBatches(bs)
    ensures FiledByPrice(Replay(bs, depth).bids) && FiledByPrice(Replay(bs, depth).asks)
  {
    if bs != [] {
      var n := |bs| - 1;
      ReplayIsFiledByPrice(bs[..n], depth);
      BatchKeepsFiling(Replay(bs[..n], depth), bs[n], depth);
    }
  }

  /** A conversion that never reverses the order of two prices. */
  ghost predicate Monotone(convert: Conversion) {
    forall a, b :: IsDecimal(a) && IsDecimal(b) && Value(a) <= Value(b) && convert(a).Some? && convert(b).Some?
      ==> convert(a).value <= convert(b).value
  }

  /** No quantity that is not zero turns into zero. */
  ghost predicate KeepsQuantities(convert: Conversion) {
    forall q :: IsDecimal(q) && Value(q) != 0.0 ==> convert(q) != Some(0.0)
  }

  function SideOf(book: Book, side: BookSide): Side {
    if side.Bid? then book.bids else book.asks
  }

  /** The converted prices of a side. */
  function Images(es: LevelMap, convert: Conversion): set<real> {
    if es == [] then {}
    else
      var image := convert(es[|es| - 1].wire.price);
      Images(es[..|es| - 1], convert) + (if image.Some? then {image.value} else {})
  }

  lemma {:induction false} NumericPrices(book: Book, side: BookSide, es: LevelMap, convert: Conversion)
    requires NumericSide(book, side, es, convert).Some? && FiledByPrice(es) && KeepsQuantities(convert)
    ensures var b := NumericSide(book, side, es, convert).value;
      && SideOf(b, side).Keys == SideOf(book, side).Keys + Images(es, convert)
      && (if side.Bid? then b.asks == book.asks else b.bids == book.bids)
  {
    if es != [] {
      var n := |es| - 1;
      NumericPrices(book, side, es[..n], convert);
      assert Filed(es[n]);
    }
  }

  lemma {:induction false} EntryImage(book: Book, side: BookSide, es: LevelMap, i: nat, convert: Conversion)
    requires NumericSide(book, side, es, convert).Some? && i < |es|
    ensures convert(es[i].wire.price).Some? && convert(es[i].wire.price).value in Images(es, convert)
  {
    var n := |es| - 1;
    if i < n {
      EntryImage(book, side, es[..n], i, convert);
    }
  }

  lemma {:induction false} ImagesAtMost(es: LevelMap, top: string, convert: Conversion)
    requires FiledByPrice(es) && Monotone(convert) && IsDecimal(top) && convert(top).Some?
    requires forall i :: 0 <= i < |es| ==> Value(es[i].wire.price) <= Value(top)
    ensures forall x :: x in Images(es, convert) ==> x <= convert(top).value
  {
    if es != [] {
      var n := |es| - 1;
      assert Value(es[n].wire.price) <= Value(top);
      ImagesAtMost(es[..n], top, convert);
    }
  }

  lemma {:induction false} ImagesAtLeast(es: LevelMap, bottom: string, convert: Conversion)
    requires FiledByPrice(es) && Monotone(convert) && IsDecimal(bottom) && convert(bottom).Some?
    requires forall i :: 0 <= i < |es| ==> Value(bottom) <= Value(es[i].wire.price)
    ensures forall x :: x in Images(es, convert) ==> convert(bottom).value <= x
  {
    if es != [] {
      var n := |es| - 1;
      assert Value(bottom) <= Value(es[n].wire.price);
      ImagesAtLeast(es[..n], bottom, convert);
    }
  }

  lemma {:induction false} PriceOrder(es: LevelMap, i: nat, j: nat)
    requires Sorted(Exact(es)) && FiledByPrice(es) && i <= j < |es|
    ensures Value(es[i].wire.price) <= Value(es[j].wire.price)
  {
    CanonicalPreservesValue(es[i].wire.price);
    CanonicalPreservesValue(es[j].wire.price);
    ExactEntry(es, i);
    ExactEntry(es, j);
  }

  /** A side as the adapter keeps it. */
  predicate WellFiled(es: LevelMap) {
    Sorted(Exact(es)) && FiledByPrice(es)
  }

  lemma {:induction false} TopImage(es: LevelMap, convert: Conversion)
    requires WellFiled(es) && Monotone(convert)
    requires es != [] && convert(es[|es| - 1].wire.price).Some?
    requires convert(es[|es| - 1].wire.price).value in Images(es, convert)
    ensures Highest(Images(es, convert)) == convert(es[|es| - 1].wire.price).value
  {
    var n := |es| - 1;
    forall i | 0 <= i < |es| ensures Value(es[i].wire.price) <= Value(es[n].wire.price) {
      PriceOrder(es, i, n);
    }
    ImagesAtMost(es, es[n].wire.price, convert);
    HighestIs(Images(es, convert), convert(es[n].wire.price).value);
  }

  lemma {:induction false} BottomImage(es: LevelMap, convert: Conversion)
    requires WellFiled(es) && Monotone(convert)
    requires es != [] && convert(es[0].wire.price).Some?
    requires convert(es[0].wire.price).value in Images(es, convert)
    ensures Lowest(Images(es, convert)) == convert(es[0].wire.price).value
  {
    forall i | 0 <= i < |es| ensures Value(es[0].wire.price) <= Value(es[i].wire.price) {
      PriceOrder(es, 0, i);
    }
    ImagesAtLeast(es, es[0].wire.price, convert);
    LowestIs(Images(es, convert), convert(es[0].wire.price).value);
  }

  lemma {:induction false} HighestIs(keys: set<real>, x: real)
    requires x in keys && forall y :: y in keys ==> y <= x
    ensures Highest(keys) == x
  {}

  lemma {:induction false} LowestIs(keys: set<real>, x: real)
    requires x in keys && forall y :: y in keys ==> x <= y
    ensures Lowest(keys) == x
  {}

  lemma {:induction false} BestBidImage(book: Book, es: LevelMap, convert: Conversion, b: Book)
    requires WellFiled(es) && Monotone(convert) && KeepsQuantities(convert) && book.bids == map[]
    requires NumericSide(book, BookSide.Bid, es, convert) == Some(b)
    ensures BestBid(b) == if es == [] then None else convert(es[|es| - 1].wire.price)
  {
    assert b.bids.Keys == Images(es, convert) by {
      NumericPrices(book, BookSide.Bid, es, convert);
      assert {} + Images(es, convert) == Images(es, convert);
    }
    if es != [] {
      EntryImage(book, BookSide.Bid, es, |es| - 1, convert);
      TopImage(es, convert);
    }
  }

  lemma {:induction false} BestAskImage(book: Book, es: LevelMap, convert: Conversion, b: Book)
    requires WellFiled(es) && Monotone(convert) && KeepsQuantities(convert) && book.asks == map[]
    requires NumericSide(book, Offer, es, convert) == Some(b)
    ensures BestAsk(b) == if es == [] then None else convert(es[0].wire.price)
  {
    assert b.asks.Keys == Images(es, convert) by {
      NumericPrices(book, Offer, es, convert);
      assert {} + Images(es, convert) == Images(es, convert);
    }
    if es != [] {
      EntryImage(book, Offer, es, 0, convert);
      BottomImage(es, convert);
    }
  }

  lemma {:induction false} BestBidOfBook(s: Sides, convert: Conversion)
    requires WellFiled(s.bids) && FiledByPrice(s.asks) && Monotone(convert) && KeepsQuantities(convert)
    requires NumericBook(s, convert).Some?
    ensures BestBid(NumericBook(s, convert).value)
      == if s.bids == [] then None else convert(s.bids[|s.bids| - 1].wire.price)
  {
    var withBids := NumericSide(EMPTY_BOOK, BookSide.Bid, s.bids, convert).value;
    BestBidImage(EMPTY_BOOK, s.bids, convert, withBids);
    NumericPrices(withBids, Offer, s.asks, convert);
  }

  lemma {:induction false} BestAskOfBook(s: Sides, convert: Conversion)
    requires FiledByPrice(s.bids) && WellFiled(s.asks) && Monotone(convert) && KeepsQuantities(convert)
    requires NumericBook(s, convert).Some?
    ensures BestAsk(NumericBook(s, convert).value)
      == if s.asks == [] then None else convert(s.asks[0].wire.price)
  {
    var withBids := NumericSide(EMPTY_BOOK, BookSide.Bid, s.bids, convert).value;
    NumericPrices(EMPTY_BOOK, BookSide.Bid, s.bids, convert);
    BestAskImage(withBids, s.asks, convert, NumericBook(s, convert).value);
  }

  /**
   Rounding may merge prices, but the numeric book's best bid and ask are still the
   images of the highest exact bid and the lowest exact ask.
   */
  lemma {:induction false} NumericBestPrices(s: Sides, convert: Conversion)
    requires WellFiled(s.bids) && WellFiled(s.asks) && Monotone(convert) && KeepsQuantities(convert)
    requires NumericBook(s, convert).Some?
    ensures BestBid(NumericBook(s, convert).value)
      == if s.bids == [] then None else convert(s.bids[|s.bids| - 1].wire.price)
    ensures BestAsk(NumericBook(s, convert).value)
      == if s.asks == [] then None else convert(s.asks[0].wire.price)
  {
    BestBidOfBook(s, convert);
    BestAskOfBook(s, convert);
  }

  // ---------- Every accepted message ----------

  /** What the conversion makes of the wire price at the highest key. */
  ghost function HighestImage(m: PriceMap, convert: Conversion): Option<real> {
    if m.Keys == {} then None else convert(m[Highest(m.Keys)].price)
  }

  ghost function LowestImage(m: PriceMap, convert: Conversion): Option<real> {
    if m.Keys == {} then None else convert(m[Lowest(m.Keys)].price)
  }

  lemma {:induction false} RepresentedKey(ls: Levels, m: PriceMap, x: real)
    requires Represents(ls, m) && x in m
    ensures exists i :: 0 <= i < |ls| && ls[i].price == x
  {
    assert Find(ls, x) == SortedLevels.Entry(m, x);
    FindWitness(ls, x);
  }

  lemma {:induction false} RepresentedAt(ls: Levels, m: PriceMap, i: nat)
    requires Represents(ls, m) && i < |ls|
    ensures ls[i].price in m && m[ls[i].price] == ls[i].wire
  {
    FindAt(ls, i);
    assert Find(ls, ls[i].price) == SortedLevels.Entry(m, ls[i].price);
  }

  lemma {:induction false} EndsAreExtreme(ls: Levels, m: PriceMap)
    requires Represents(ls, m) && ls != []
    ensures m.Keys != {}
    ensures Highest(m.Keys) == ls[|ls| - 1].price && Lowest(m.Keys) == ls[0].price
  {
    RepresentedAt(ls, m, 0);
    RepresentedAt(ls, m, |ls| - 1);
    forall x | x in m.Keys ensures ls[0].price <= x <= ls[|ls| - 1].price {
      RepresentedKey(ls, m, x);
    }
    HighestIs(m.Keys, ls[|ls| - 1].price);
    LowestIs(m.Keys, ls[0].price);
  }

  lemma {:induction false} EmptyRepresents(ls: Levels, m: PriceMap)
    requires Represents(ls, m) && ls == []
    ensures m.Keys == {}
  {
    forall x | x in m.Keys ensures false {
      RepresentedKey(ls, m, x);
    }
  }

  /** The entries at the two ends carry the wire texts of the extreme prices of the reference map. */
  lemma {:induction false} EndsAreImages(es: LevelMap, m: PriceMap, convert: Conversion)
    requires Holds(es, m)
    ensures HighestImage(m, convert) == if es == [] then None else convert(es[|es| - 1].wire.price)
    ensures LowestImage(m, convert) == if es == [] then None else convert(es[0].wire.price)
  {
    ExactLength(es);
    if es == [] {
      EmptyRepresents(Exact(es), m);
    } else {
      EndsAreExtreme(Exact(es), m);
      RepresentedAt(Exact(es), m, 0);
      RepresentedAt(Exact(es), m, |es| - 1);
      ExactEntry(es, 0);
      ExactEntry(es, |es| - 1);
    }
  }

  lemma {:induction false} ReplayBestPrices(bs: seq<Batch>, depth: nat, convert: Conversion)
    requires ValidBatches(bs) && Monotone(convert) && KeepsQuantities(convert)
    requires NumericBook(Replay(bs, depth), convert).Some?
    ensures var book := NumericBook(Replay(bs, depth), convert).value;
      && BestBid(book) == HighestImage(RefBids(bs, depth), convert)
      && BestAsk(book) == LowestImage(RefAsks(bs, depth), convert)
  {
    var sides := Replay(bs, depth);
    ReplayHoldsBids(bs, depth);
    ReplayHoldsAsks(bs, depth);
    ReplayIsFiledByPrice(bs, depth);
    NumericBestPrices(sides, convert);
    EndsAreImages(sides.bids, RefBids(bs, depth), convert);
    EndsAreImages(sides.asks, RefAsks(bs, depth), convert);
  }

  lemma {:induction false} JournalOfAccepted(cfg: AdapterConfig, inputs: seq<Input>, raw: string, m: ParsedMessage)
    requires Decide(cfg, Run(cfg, inputs), raw, m).Accepted?
    ensures var s, b := Run(cfg, inputs), Decide(cfg, Run(cfg, inputs), raw, m).batch;
      && ApplyBatch(s.sides, b, cfg.depth) == Replay(Journal(cfg, inputs + [Message(raw, m)]), cfg.depth)
      && ValidBatches(Journal(cfg, inputs + [Message(raw, m)]))
      && Trustworthy(cfg, s.sides, b)
  {
    var all := inputs + [Message(raw, m)];
    assert all[..|inputs|] == inputs;
    DecidedBatchIsValid(cfg, Run(cfg, inputs), raw, m);
    LiveBookIsReplay(cfg, all);
  }

  /**
   Whatever the adapter has been fed, the book of an accepted message has as best bid
   and ask the images of the highest bid and the lowest ask of the reference maps:
   rounding may merge levels but never moves the best prices to other ones.
   */
  lemma {:induction false} EventBestPrices(cfg: AdapterConfig, inputs: seq<Input>, raw: string, m: ParsedMessage)
    requires Monotone(cfg.convert) && KeepsQuantities(cfg.convert)
    requires Decide(cfg, Run(cfg, inputs), raw, m).Accepted?
    ensures var event := EventFor(cfg, Run(cfg, inputs), Decide(cfg, Run(cfg, inputs), raw, m));
      var j := Journal(cfg, inputs + [Message(raw, m)]);
      && event.Some? && event.value.book.Some?
      && BestBid(event.value.book.value) == HighestImage(RefBids(j, cfg.depth), cfg.convert)
      && BestAsk(event.value.book.value) == LowestImage(RefAsks(j, cfg.depth), cfg.convert)
  {
    var j := Journal(cfg, inputs + [Message(raw, m)]);
    JournalOfAccepted(cfg, inputs, raw, m);
    ReplayBestPrices(j, cfg.depth, cfg.convert);
  }
}
