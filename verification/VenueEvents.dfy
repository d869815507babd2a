/** Markets, statuses and the trusted events that venue sessions emit. */
module VenueEvents {
  import opened Wrappers
  import opened OrderBooks

  datatype Venue = Coinbase | Kraken

  datatype Product = Product(base: string, quote: string)

  datatype MarketKey = MarketKey(venue: Venue, product: Product)

  datatype VenueMarketStatus =
    | Unsupported
    | Connecting
    | WaitingForSnapshot
    | Live
    | Stale
    | Disconnected
    | Reconnecting

  datatype TrustedBookEventType = Snapshot | Update | Invalidated

  datatype TrustedBookEvent = TrustedBookEvent(
    kind: TrustedBookEventType, market: MarketKey, timestamp: int, book: Option<Book>)

  datatype VenueSessionEvent =
    | Trusted(event: TrustedBookEvent)
    | Status(key: MarketKey, status: VenueMarketStatus)
  {
    function Market(): MarketKey {
      match this case Trusted(event) => event.market case Status(key, _) => key
    }
  }

  /** The configured products. */
  type Universe = seq<Product>

  predicate Distinct(universe: Universe) {
    forall i, j :: 0 <= i < |universe| && i < j < |universe| ==> universe[i] != universe[j]
  }

  /** One status event for each product that is not excluded, in order. */
  function Statuses(venue: Venue, products: seq<Product>, excluded: set<Product>, status: VenueMarketStatus)
    : seq<VenueSessionEvent>
  {
    if products == [] then []
    else
      var p := products[|products| - 1];
      var before := Statuses(venue, products[..|products| - 1], excluded, status);
      if p in excluded then before else before + [Status(MarketKey(venue, p), status)]
  }

  predicate OnlyStatuses(log: seq<VenueSessionEvent>) {
    forall i :: 0 <= i < |log| ==> log[i].Status?
  }

  lemma {:induction false} StatusesOnly(
      venue: Venue, products: seq<Product>, excluded: set<Product>, status: VenueMarketStatus)
    ensures OnlyStatuses(Statuses(venue, products, excluded, status))
  {
    if products != [] {
      StatusesOnly(venue, products[..|products| - 1], excluded, status);
    }
  }
}
