/** The consolidated quote over venues: best bid, best ask and their fragmentation. */
module ConsolidatedQuotes {
  import opened Wrappers
  import opened OrderBooks
  import opened VenueEvents
  import opened MarketStateStores

  datatype VenueQuote = VenueQuote(venue: Venue, price: real, quantity: real)

  datatype VenueTop = VenueTop(status: VenueMarketStatus, bid: Option<VenueQuote>, ask: Option<VenueQuote>)

  datatype Fragmentation = Fragmentation(bidBps: real, askBps: real, maxBps: real)

  datatype ConsolidatedQuote = ConsolidatedQuote(
    product: Product, venues: map<Venue, VenueTop>, bestBid: Option<VenueQuote>, bestAsk: Option<VenueQuote>,
    fragmentation: Option<Fragmentation>)

  datatype QuoteError = DifferentProduct | DuplicateVenue

  predicate VenueBefore(a: Venue, b: Venue) {
    a.Coinbase? && b.Kraken?
  }

  /** Higher price, then larger quantity, then the earlier venue. */
  predicate BetterBid(a: VenueQuote, b: VenueQuote) {
    if a.price != b.price then a.price > b.price
    else if a.quantity != b.quantity then a.quantity > b.quantity
    else VenueBefore(a.venue, b.venue)
  }

  predicate BetterAsk(a: VenueQuote, b: VenueQuote) {
    if a.price != b.price then a.price < b.price
    else if a.quantity != b.quantity then a.quantity > b.quantity
    else VenueBefore(a.venue, b.venue)
  }

  function TopBid(state: VenueBookState): Option<VenueQuote> {
    if state.status != Live || state.book.None? then None
    else match BestBid(state.book.value)
      case None => None
      case Some(price) => Some(VenueQuote(state.market.venue, price, state.book.value.bids[price]))
  }

  function TopAsk(state: VenueBookState): Option<VenueQuote> {
    if state.status != Live || state.book.None? then None
    else match BestAsk(state.book.value)
      case None => None
      case Some(price) => Some(VenueQuote(state.market.venue, price, state.book.value.asks[price]))
  }

  function Top(state: VenueBookState): VenueTop {
    VenueTop(state.status, TopBid(state), TopAsk(state))
  }

  function BestBidOf(states: seq<VenueBookState>): Option<VenueQuote> {
    if states == [] then None
    else
      var before, top := BestBidOf(states[..|states| - 1]), TopBid(states[|states| - 1]);
      if top.Some? && (before.None? || BetterBid(top.value, before.value)) then top else before
  }

  function BestAskOf(states: seq<VenueBookState>): Option<VenueQuote> {
    if states == [] then None
    else
      var before, top := BestAskOf(states[..|states| - 1]), TopAsk(states[|states| - 1]);
      if top.Some? && (before.None? || BetterAsk(top.value, before.value)) then top else before
  }

  function Tops(states: seq<VenueBookState>): map<Venue, VenueTop> {
    if states == [] then map[]
    else Tops(states[..|states| - 1])[states[|states| - 1].market.venue := Top(states[|states| - 1])]
  }

  /** The first state that makes the calculation refuse its input. */
  function Refusal(product: Product, states: seq<VenueBookState>): Option<QuoteError> {
    if states == [] then None
    else
      var before, state := Refusal(product, states[..|states| - 1]), states[|states| - 1];
      if before.Some? then before
      else if state.market.product != product then Some(DifferentProduct)
      else if state.market.venue in Tops(states[..|states| - 1]) then Some(DuplicateVenue)
      else None
  }

  function Difference(a: real, b: real): real {
    if a < b then b - a else a - b
  }

  function Bps(difference: real, midpoint: real): real
    requires midpoint > 0.0
  {
    difference / midpoint * 10000.0
  }

  predicate BothSides(top: VenueTop) {
    top.status == Live && top.bid.Some? && top.ask.Some?
  }

  predicate Comparable(venues: map<Venue, VenueTop>) {
    Coinbase in venues && Kraken in venues && BothSides(venues[Coinbase]) && BothSides(venues[Kraken])
  }

  function FragmentationOf(
      venues: map<Venue, VenueTop>, bid: Option<VenueQuote>, ask: Option<VenueQuote>): Option<Fragmentation>
  {
    if !Comparable(venues) || bid.None? || ask.None? then None
    else
      var midpoint := (bid.value.price + ask.value.price) / 2.0;
      if midpoint <= 0.0 then None
      else
        var bidBps := Bps(Difference(venues[Coinbase].bid.value.price, venues[Kraken].bid.value.price), midpoint);
        var askBps := Bps(Difference(venues[Coinbase].ask.value.price, venues[Kraken].ask.value.price), midpoint);
        Some(Fragmentation(bidBps, askBps, if bidBps < askBps then askBps else bidBps))
  }

  function QuoteFor(product: Product, states: seq<VenueBookState>): ConsolidatedQuote {
    var venues, bid, ask := Tops(states), BestBidOf(states), BestAskOf(states);
    ConsolidatedQuote(product, venues, bid, ask, FragmentationOf(venues, bid, ask))
  }

  method Calculate(product: Product, states: seq<VenueBookState>) returns (r: Result<ConsolidatedQuote, QuoteError>)
    ensures r == match Refusal(product, states)
      case Some(error) => Failure(error)
      case None => Success(QuoteFor(product, states))
  {
    var venues: map<Venue, VenueTop> := map[];
    var bestBid, bestAsk := None, None;
    for i := 0 to |states|
      invariant Refusal(product, states[..i]) == None
      invariant venues == Tops(states[..i])
      invariant bestBid == BestBidOf(states[..i]) && bestAsk == BestAskOf(states[..i])
    {
      var state := states[i];
      assert states[..i + 1][..i] == states[..i];
      if state.market.product != product {
        RefusalStands(product, states, i + 1);
        return Failure(DifferentProduct);
      }
      if state.market.venue in venues {
        RefusalStands(product, states, i + 1);
        return Failure(DuplicateVenue);
      }
      var top := Top(state);
      venues := venues[state.market.venue := top];
      if top.bid.Some? && (bestBid.None? || BetterBid(top.bid.value, bestBid.value)) {
        bestBid := top.bid;
      }
      if top.ask.Some? && (bestAsk.None? || BetterAsk(top.ask.value, bestAsk.value)) {
        bestAsk := top.ask;
      }
    }
    assert states[..|states|] == states;
    return Success(ConsolidatedQuote(product, venues, bestBid, bestAsk, FragmentationOf(venues, bestBid, bestAsk)));
  }

  lemma {:induction false} RefusalStands(product: Product, states: seq<VenueBookState>, n: nat)
    requires n <= |states| && Refusal(product, states[..n]).Some?
    ensures Refusal(product, states) == Refusal(product, states[..n])
    decreases |states|
  {
    if n < |states| {
      assert states[..|states| - 1][..n] == states[..n];
      RefusalStands(product, states[..|states| - 1], n);
    } else {
      assert states[..n] == states;
    }
  }

  // ---------- The optimum ----------

  /** The best bid: offered by some Live venue, and no Live venue's bid is better; none if there are no bids. */
  predicate OptimalBid(best: Option<VenueQuote>, states: seq<VenueBookState>) {
    && (best.None? ==> forall s :: s in states ==> TopBid(s).None?)
    && (best.Some? ==>
          && (exists s :: s in states && TopBid(s) == best)
          && (forall s :: s in states && TopBid(s).Some? ==> !BetterBid(TopBid(s).value, best.value)))
  }

  predicate OptimalAsk(best: Option<VenueQuote>, states: seq<VenueBookState>) {
    && (best.None? ==> forall s :: s in states ==> TopAsk(s).None?)
    && (best.Some? ==>
          && (exists s :: s in states && TopAsk(s) == best)
          && (forall s :: s in states && TopAsk(s).Some? ==> !BetterAsk(TopAsk(s).value, best.value)))
  }

  lemma {:induction false} BestBidIsOptimal(states: seq<VenueBookState>)
    ensures OptimalBid(BestBidOf(states), states)
  {
    if states != [] {
      var front, last := states[..|states| - 1], states[|states| - 1];
      BestBidIsOptimal(front);
      assert forall s :: s in states <==> s in front || s == last;
    }
  }

  lemma {:induction false} BestAskIsOptimal(states: seq<VenueBookState>)
    ensures OptimalAsk(BestAskOf(states), states)
  {
    if states != [] {
      var front, last := states[..|states| - 1], states[|states| - 1];
      BestAskIsOptimal(front);
      assert forall s :: s in states <==> s in front || s == last;
    }
  }

  /** The order is total, so the optimum is unique. */
  lemma {:induction false} OptimumIsUnique(a: seq<VenueBookState>, b: seq<VenueBookState>)
    requires forall s :: s in a <==> s in b
    ensures BestBidOf(a) == BestBidOf(b) && BestAskOf(a) == BestAskOf(b)
  {
    BestBidIsOptimal(a);
    BestBidIsOptimal(b);
    BestAskIsOptimal(a);
    BestAskIsOptimal(b);
  }

  /** Each accepted state is its own venue's entry. */
  lemma {:induction false} TopsAreStates(product: Product, states: seq<VenueBookState>)
    requires Refusal(product, states) == None
    ensures forall s :: s in states ==>
      s.market.product == product && s.market.venue in Tops(states) && Tops(states)[s.market.venue] == Top(s)
    ensures forall v :: v in Tops(states) ==> exists s :: s in states && s.market.venue == v
  {
    if states != [] {
      var front, last := states[..|states| - 1], states[|states| - 1];
      TopsAreStates(product, front);
      assert forall s :: s in states <==> s in front || s == last;
    }
  }

  lemma {:induction false} KnownVenues(states: seq<VenueBookState>, v: Venue)
    ensures v in Tops(states) <==> exists s :: s in states && s.market.venue == v
  {
    if states != [] {
      KnownVenues(states[..|states| - 1], v);
      assert states == states[..|states| - 1] + [states[|states| - 1]];
    }
  }

  /** What the calculation accepts: states of the product, one per venue. */
  predicate OnePerVenue(product: Product, states: multiset<VenueBookState>) {
    && (forall s :: s in states ==> s.market.product == product && states[s] == 1)
    && (forall s, t :: s in states && t in states && s.market.venue == t.market.venue ==> s == t)
  }

  lemma {:induction false} AcceptedIffOnePerVenue(product: Product, states: seq<VenueBookState>)
    ensures Refusal(product, states) == None <==> OnePerVenue(product, multiset(states))
  {
    if states != [] {
      var front, last := states[..|states| - 1], states[|states| - 1];
      assert states == front + [last];
      AcceptedIffOnePerVenue(product, front);
      KnownVenues(front, last.market.venue);
      OnePerVenueSnoc(product, multiset(front), last);
      assert multiset(states) == multiset(front) + multiset{last};
      assert forall s :: s in front <==> s in multiset(front);
    }
  }

  lemma {:induction false} OnePerVenueSnoc(product: Product, m: multiset<VenueBookState>, x: VenueBookState)
    ensures OnePerVenue(product, m + multiset{x}) <==>
      OnePerVenue(product, m) && x.market.product == product && forall s :: s in m ==> s.market.venue != x.market.venue
  {
    var all := m + multiset{x};
    assert x in all && forall s :: s in m ==> s in all;
    assert forall s :: s in all <==> s in m || s == x;
    assert forall s :: s != x ==> all[s] == m[s];
    if OnePerVenue(product, all) {
      assert all[x] == m[x] + 1;
    }
  }

  /** The state at which the calculation stops, and why. */
  predicate Stops(product: Product, states: seq<VenueBookState>, i: nat, error: QuoteError) {
    && i < |states| && OnePerVenue(product, multiset(states[..i]))
    && (error == DifferentProduct <==> states[i].market.product != product)
    && (error == DuplicateVenue ==> exists s :: s in states[..i] && s.market.venue == states[i].market.venue)
  }

  /** A refusal names the first state that is of another product, or of a venue seen before. */
  lemma {:induction false} RefusalIsFirst(product: Product, states: seq<VenueBookState>)
    requires Refusal(product, states).Some?
    ensures exists i: nat :: Stops(product, states, i, Refusal(product, states).value)
  {
    var front, last := states[..|states| - 1], states[|states| - 1];
    if Refusal(product, front).Some? {
      RefusalIsFirst(product, front);
      var i: nat :| Stops(product, front, i, Refusal(product, front).value);
      assert states[..i] == front[..i] && states[i] == front[i];
      assert Stops(product, states, i, Refusal(product, states).value);
    } else {
      AcceptedIffOnePerVenue(product, front);
      KnownVenues(front, last.market.venue);
      assert Stops(product, states, |front|, Refusal(product, states).value);
    }
  }

  /** The order of the states matters neither for being accepted nor for the quote. */
  lemma {:induction false} QuoteIgnoresOrder(product: Product, a: seq<VenueBookState>, b: seq<VenueBookState>)
    requires multiset(a) == multiset(b)
    ensures Refusal(product, a) == None <==> Refusal(product, b) == None
    ensures Refusal(product, a) == None ==> QuoteFor(product, a) == QuoteFor(product, b)
  {
    AcceptedIffOnePerVenue(product, a);
    AcceptedIffOnePerVenue(product, b);
    assert forall s :: s in a <==> s in multiset(a);
    assert forall s :: s in b <==> s in multiset(b);
    if Refusal(product, a) == None {
      OptimumIsUnique(a, b);
      TopsAreStates(product, a);
      TopsAreStates(product, b);
      assert Tops(a) == Tops(b);
    }
  }

  /** The quote's best prices are the extreme prices over all Live books. */
  lemma {:induction false} BestPricesAreExtreme(states: seq<VenueBookState>, s: VenueBookState, price: real)
    requires s in states && s.status == Live && s.book.Some?
    ensures price in s.book.value.bids ==> BestBidOf(states).Some? && price <= BestBidOf(states).value.price
    ensures price in s.book.value.asks ==> BestAskOf(states).Some? && BestAskOf(states).value.price <= price
  {
    BestBidIsOptimal(states);
    BestAskIsOptimal(states);
    assert price in s.book.value.bids ==> price in s.book.value.bids.Keys;
    assert price in s.book.value.asks ==> price in s.book.value.asks.Keys;
  }

  /** Fragmentation is zero exactly when both venues quote the same prices on both sides. */
  lemma {:induction false} NoFragmentationIffEqualPrices(
      venues: map<Venue, VenueTop>, bid: Option<VenueQuote>, ask: Option<VenueQuote>)
    requires FragmentationOf(venues, bid, ask).Some?
    ensures var f := FragmentationOf(venues, bid, ask).value;
      && f.bidBps >= 0.0 && f.askBps >= 0.0
      && (f.maxBps == 0.0 <==>
            && venues[Coinbase].bid.value.price == venues[Kraken].bid.value.price
            && venues[Coinbase].ask.value.price == venues[Kraken].ask.value.price)
  {
    var midpoint := (bid.value.price + ask.value.price) / 2.0;
    BpsSign(Difference(venues[Coinbase].bid.value.price, venues[Kraken].bid.value.price), midpoint);
    BpsSign(Difference(venues[Coinbase].ask.value.price, venues[Kraken].ask.value.price), midpoint);
  }

  lemma {:induction false} BpsSign(difference: real, midpoint: real)
    requires difference >= 0.0 && midpoint > 0.0
    ensures Bps(difference, midpoint) >= 0.0 && (Bps(difference, midpoint) == 0.0 <==> difference == 0.0)
  {
    var q := difference / midpoint;
    assert q * midpoint == difference;
  }

  /** A venue's top quotes are the best prices of its Live book with their quantities; other venues have none. */
  lemma {:induction false} TopsAreBestPrices(s: VenueBookState)
    ensures TopBid(s).Some? <==> s.status == Live && s.book.Some? && s.book.value.bids != map[]
    ensures TopAsk(s).Some? <==> s.status == Live && s.book.Some? && s.book.value.asks != map[]
    ensures TopBid(s).Some? ==>
      var q, bids := TopBid(s).value, s.book.value.bids;
      && q.venue == s.market.venue && q.price in bids && q.quantity == bids[q.price]
      && forall p :: p in bids ==> p <= q.price
    ensures TopAsk(s).Some? ==>
      var q, asks := TopAsk(s).value, s.book.value.asks;
      && q.venue == s.market.venue && q.price in asks && q.quantity == asks[q.price]
      && forall p :: p in asks ==> q.price <= p
  {
    if s.book.Some? {
      assert s.book.value.bids.Keys == {} <==> s.book.value.bids == map[];
      assert s.book.value.asks.Keys == {} <==> s.book.value.asks == map[];
    }
  }

  /** No offer beats this one: first by price, then by quantity, then Coinbase before Kraken. */
  predicate Unbeaten(best: VenueQuote, other: VenueQuote, bid: bool) {
    && (if bid then other.price <= best.price else best.price <= other.price)
    && (other.price == best.price ==> other.quantity <= best.quantity)
    && (other.price == best.price && other.quantity == best.quantity && other.venue == Coinbase ==>
          best.venue == Coinbase)
  }

  lemma {:induction false} BestQuotesAreUnbeaten(states: seq<VenueBookState>, s: VenueBookState)
    requires s in states
    ensures TopBid(s).Some? ==> BestBidOf(states).Some? && Unbeaten(BestBidOf(states).value, TopBid(s).value, true)
    ensures TopAsk(s).Some? ==> BestAskOf(states).Some? && Unbeaten(BestAskOf(states).value, TopAsk(s).value, false)
  {
    BestBidIsOptimal(states);
    BestAskIsOptimal(states);
  }

  /** The basis points of a difference, relative to the midpoint. */
  predicate IsBpsOf(bps: real, a: real, b: real, midpoint: real) {
    bps >= 0.0 && (bps * midpoint == (a - b) * 10000.0 || bps * midpoint == (b - a) * 10000.0)
  }

  lemma {:induction false} BpsOfDifference(a: real, b: real, midpoint: real)
    requires midpoint > 0.0
    ensures IsBpsOf(Bps(Difference(a, b), midpoint), a, b, midpoint)
  {
    BpsSign(Difference(a, b), midpoint);
    var q := Difference(a, b) / midpoint;
    assert q * midpoint == Difference(a, b);
    assert q * 10000.0 * midpoint == q * midpoint * 10000.0;
  }

  predicate QuotesBoth(q: ConsolidatedQuote, v: Venue) {
    v in q.venues && q.venues[v].bid.Some? && q.venues[v].ask.Some?
  }

  /**
   There is a fragmentation exactly when both venues are Live with both sides and the
   midpoint of the consolidated best prices is positive. It gives the difference of the
   venues' bids and of their asks in basis points of that midpoint, and the larger of both.
   */
  lemma {:induction false} FragmentationIsRelativeDifference(product: Product, states: seq<VenueBookState>)
    requires Refusal(product, states) == None
    ensures var q := QuoteFor(product, states);
      && (q.fragmentation.Some? <==>
            && QuotesBoth(q, Coinbase) && QuotesBoth(q, Kraken)
            && q.bestBid.Some? && q.bestAsk.Some? && q.bestBid.value.price + q.bestAsk.value.price > 0.0)
      && (q.fragmentation.Some? ==>
            var f, coinbase, kraken := q.fragmentation.value, q.venues[Coinbase], q.venues[Kraken];
            exists mid :: mid - q.bestBid.value.price == q.bestAsk.value.price - mid
              && IsBpsOf(f.bidBps, coinbase.bid.value.price, kraken.bid.value.price, mid)
              && IsBpsOf(f.askBps, coinbase.ask.value.price, kraken.ask.value.price, mid)
              && f.bidBps <= f.maxBps && f.askBps <= f.maxBps && (f.maxBps == f.bidBps || f.maxBps == f.askBps))
  {
    var q := QuoteFor(product, states);
    TopsAreTops(states);
    if q.fragmentation.Some? {
      var mid := (q.bestBid.value.price + q.bestAsk.value.price) / 2.0;
      BpsOfDifference(q.venues[Coinbase].bid.value.price, q.venues[Kraken].bid.value.price, mid);
      BpsOfDifference(q.venues[Coinbase].ask.value.price, q.venues[Kraken].ask.value.price, mid);
      assert mid - q.bestBid.value.price == q.bestAsk.value.price - mid;
    }
  }

  lemma {:induction false} TopsAreTops(states: seq<VenueBookState>)
    ensures forall v :: v in Tops(states) && (Tops(states)[v].bid.Some? || Tops(states)[v].ask.Some?) ==>
      Tops(states)[v].status == Live
  {
    if states != [] {
      TopsAreTops(states[..|states| - 1]);
    }
  }

  // ---------- Quotes of a store ----------

  /** A valid store never makes the calculation refuse, and its quote has exactly the venues it knows. */
  lemma {:induction false} StoreNeverRefused(states: Store, product: Product)
    requires StoreValid(states)
    ensures Refusal(product, ProductStates(states, product)) == None
    ensures Coinbase in Tops(ProductStates(states, product)) <==> MarketKey(Coinbase, product) in states
    ensures Kraken in Tops(ProductStates(states, product)) <==> MarketKey(Kraken, product) in states
  {
    var known := ProductStates(states, product);
    var coinbase, kraken := MarketKey(Coinbase, product), MarketKey(Kraken, product);
    OneStateAccepted(product, states, coinbase);
    OneStateAccepted(product, states, kraken);
    if coinbase in states && kraken in states {
      assert known == [states[coinbase]] + [states[kraken]];
      assert known[..1] == [states[coinbase]];
    } else if coinbase in states {
      assert known == [states[coinbase]];
    } else if kraken in states {
      assert known == [states[kraken]];
    } else {
      assert known == [];
    }
  }

  lemma {:induction false} OneStateAccepted(product: Product, states: Store, market: MarketKey)
    requires StoreValid(states) && market.product == product
    ensures market in states ==>
      Refusal(product, [states[market]]) == None && Tops([states[market]]) == map[market.venue := Top(states[market])]
  {
    if market in states {
      assert [states[market]][..0] == [];
    }
  }
}
