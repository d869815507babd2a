/** The latest trusted state of every market. */
module MarketStateStores {
  import opened Wrappers
  import opened OrderBooks
  import opened VenueEvents

  datatype VenueBookState = VenueBookState(market: MarketKey, status: VenueMarketStatus, book: Option<Book>,
    timestamp: int)

  type Store = map<MarketKey, VenueBookState>

  datatype StoreError = MissingBook | LiveNeedsBook

  function Applied(states: Store, e: TrustedBookEvent): Result<Store, StoreError> {
    if !e.kind.Invalidated? && e.book.None? then Failure(MissingBook)
    else match e.kind
      case Snapshot => Success(states[e.market := VenueBookState(e.market, Live, e.book, e.timestamp)])
      case Update =>
        if e.market !in states || states[e.market].status != Live then Success(states)
        else Success(states[e.market := states[e.market].(book := e.book, timestamp := e.timestamp)])
      case Invalidated => Success(states[e.market := VenueBookState(e.market, Stale, None, e.timestamp)])
  }

  function StatusSet(states: Store, market: MarketKey, status: VenueMarketStatus): Result<Store, StoreError> {
    if status == Live then Failure(LiveNeedsBook)
    else if market !in states then Success(states[market := VenueBookState(market, status, None, 0)])
    else Success(states[market := states[market].(status := status, book := None)])
  }

  /** A venue session's event, or the reason it is refused. */
  function Received(states: Store, e: VenueSessionEvent): Result<Store, StoreError> {
    match e
    case Trusted(event) => Applied(states, event)
    case Status(key, status) => StatusSet(states, key, status)
  }

  /** One product's states, in the order of the map's keys. */
  function ProductStates(states: Store, product: Product): seq<VenueBookState> {
    var coinbase, kraken := MarketKey(Coinbase, product), MarketKey(Kraken, product);
    (if coinbase in states then [states[coinbase]] else []) + if kraken in states then [states[kraken]] else []
  }

  /** Every state is filed under its own market, and a market is Live exactly when its book is there. */
  predicate StoreValid(states: Store) {
    forall key :: key in states ==>
      states[key].market == key && (states[key].status == Live <==> states[key].book.Some?)
  }

  class MarketStateStore {
    var states: Store

    constructor ()
      ensures states == map[]
    {
      states := map[];
    }

    method Apply(e: TrustedBookEvent) returns (error: Option<StoreError>)
      modifies this
      ensures match Applied(old(states), e)
        case Success(next) => error == None && states == next
        case Failure(reason) => error == Some(reason) && states == old(states)
    {
      if !e.kind.Invalidated? && e.book.None? {
        return Some(MissingBook);
      }
      match e.kind {
        case Snapshot =>
          states := states[e.market := VenueBookState(e.market, Live, e.book, e.timestamp)];
        case Update =>
          if e.market in states && states[e.market].status == Live {
            states := states[e.market := states[e.market].(book := e.book, timestamp := e.timestamp)];
          }
        case Invalidated =>
          states := states[e.market := VenueBookState(e.market, Stale, None, e.timestamp)];
      }
      return None;
    }

    method SetStatus(market: MarketKey, status: VenueMarketStatus) returns (error: Option<StoreError>)
      modifies this
      ensures match StatusSet(old(states), market, status)
        case Success(next) => error == None && states == next
        case Failure(reason) => error == Some(reason) && states == old(states)
    {
      if status == Live {
        return Some(LiveNeedsBook);
      }
      if market in states {
        states := states[market := states[market].(status := status, book := None)];
      } else {
        states := states[market := VenueBookState(market, status, None, 0)];
      }
      return None;
    }
  }

  /** The store after a run of events; a refused event changes nothing. */
  function StoreAfter(states: Store, events: seq<VenueSessionEvent>): Store {
    if events == [] then states
    else
      var before := StoreAfter(states, events[..|events| - 1]);
      match Received(before, events[|events| - 1])
      case Success(next) => next
      case Failure(_) => before
  }

  /** In every reachable store, Live and only Live markets have a book. */
  lemma {:induction false} LiveIffBook(states: Store, events: seq<VenueSessionEvent>)
    requires StoreValid(states)
    ensures StoreValid(StoreAfter(states, events))
  {
    if events != [] {
      LiveIffBook(states, events[..|events| - 1]);
    }
  }

  predicate IsLive(states: Store, market: MarketKey) {
    market in states && states[market].status == Live
  }

  /** A market becomes Live only by a snapshot of its own, and stays so only by further trusted books. */
  lemma {:induction false} OnlySnapshotsMakeLive(states: Store, e: VenueSessionEvent, market: MarketKey)
    requires Received(states, e).Success?
    ensures IsLive(Received(states, e).value, market) <==>
      if e.Market() != market then IsLive(states, market)
      else e.Trusted? && (e.event.kind.Snapshot? || (e.event.kind.Update? && IsLive(states, market)))
  {}
}
