/**
 The market scanner: one lock around store, quote and hub; a cached message per
 product; and one queue per subscriber.
 */
module Scanners {
  import opened Wrappers
  import opened VenueEvents
  import opened MarketStateStores
  import opened ConsolidatedQuotes

  /** The serialised texts, as their contents. */
  datatype ScannerMessage = ScannerHello(products: Universe) | ScannerUpdate(quote: ConsolidatedQuote)

  datatype ScannerError = OutsideUniverse | Refused(reason: StoreError) | QuoteRefused(why: QuoteError) | MissingVenue

  type Cache = map<Product, ScannerMessage>

  const CONNECTING_TOP := VenueTop(Connecting, None, None)

  function InitialQuote(product: Product): ConsolidatedQuote {
    ConsolidatedQuote(product, map[Coinbase := CONNECTING_TOP, Kraken := CONNECTING_TOP], None, None, None)
  }

  function InitialCache(universe: Universe): Cache {
    map p | p in universe :: ScannerUpdate(InitialQuote(p))
  }

  /** `scanner_update_message`: every configured venue has to be there. */
  function UpdateMessage(quote: ConsolidatedQuote): Result<ScannerMessage, ScannerError> {
    if Coinbase !in quote.venues || Kraken !in quote.venues then Failure(MissingVenue)
    else Success(ScannerUpdate(quote))
  }

  /** The new cache and the message for the subscribers, if it differs from the cached one. */
  datatype Published = Published(cache: Cache, sent: seq<ScannerMessage>)

  function PublishQuote(universe: Universe, cache: Cache, quote: ConsolidatedQuote): Result<Published, ScannerError> {
    if quote.product !in universe then Failure(OutsideUniverse)
    else match UpdateMessage(quote)
      case Failure(error) => Failure(error)
      case Success(message) =>
        if quote.product in cache && cache[quote.product] == message then Success(Published(cache, []))
        else Success(Published(cache[quote.product := message], [message]))
  }

  predicate Covers(universe: Universe, cache: Cache) {
    forall i :: 0 <= i < |universe| ==> universe[i] in cache
  }

  /** A first message, then the cached message of each product. */
  function CachedAfter(first: ScannerMessage, universe: Universe, cache: Cache): (messages: seq<ScannerMessage>)
    requires Covers(universe, cache)
  {
    if universe == [] then [first]
    else CachedAfter(first, universe[..|universe| - 1], cache) + [cache[universe[|universe| - 1]]]
  }

  function SnapshotMessages(universe: Universe, cache: Cache): seq<ScannerMessage>
    requires Covers(universe, cache)
  {
    CachedAfter(ScannerHello(universe), universe, cache)
  }

  /** The publisher's constructor: every market of the universe is connecting. */
  function ConnectAll(states: Store, universe: Universe): Store {
    if universe == [] then states
    else
      var before := ConnectAll(states, universe[..|universe| - 1]);
      var p := universe[|universe| - 1];
      Connect(Connect(before, MarketKey(Coinbase, p)), MarketKey(Kraken, p))
  }

  function Connect(states: Store, market: MarketKey): Store {
    StatusSet(states, market, Connecting).value
  }

  datatype Outcome = Outcome(states: Store, cache: Cache, sent: seq<ScannerMessage>, error: Option<ScannerError>)

  /** Recalculate one product's quote and publish it. */
  function Requote(universe: Universe, states: Store, cache: Cache, product: Product): Outcome {
    var known := ProductStates(states, product);
    match Refusal(product, known)
    case Some(why) => Outcome(states, cache, [], Some(QuoteRefused(why)))
    case None =>
      match PublishQuote(universe, cache, QuoteFor(product, known))
      case Failure(error) => Outcome(states, cache, [], Some(error))
      case Success(p) => Outcome(states, p.cache, p.sent, None)
  }

  function ApplyEvent(universe: Universe, states: Store, cache: Cache, e: VenueSessionEvent): Outcome {
    var product := e.Market().product;
    if product !in universe then Outcome(states, cache, [], Some(OutsideUniverse))
    else match Received(states, e)
      case Failure(reason) => Outcome(states, cache, [], Some(Refused(reason)))
      case Success(next) => Requote(universe, next, cache, product)
  }

  // ---------- The classes ----------

  class ScannerStreamSubscriber {
    var messages: seq<ScannerMessage>

    constructor (initial: seq<ScannerMessage>)
      ensures messages == initial
    {
      messages := initial;
    }

    method Take() returns (message: Option<ScannerMessage>)
      modifies this
      ensures old(messages) == [] ==> message == None && messages == []
      ensures old(messages) != [] ==> message.Some? && old(messages) == [message.value] + messages
    {
      if messages == [] {
        return None;
      }
      message := Some(messages[0]);
      messages := messages[1..];
    }

    method Enqueue(message: ScannerMessage)
      modifies this
      ensures messages == old(messages) + [message]
    {
      messages := messages + [message];
    }
  }

  class ScannerStreamHub {
    const universe: Universe
    var current: Cache
    var subscribers: seq<ScannerStreamSubscriber>

    constructor (universe: Universe)
      ensures this.universe == universe && current == InitialCache(universe) && subscribers == [] && Valid()
    {
      this.universe := universe;
      current := map p | p in universe :: ScannerUpdate(InitialQuote(p));
      subscribers := [];
    }

    ghost predicate Valid()
      reads this
    {
      && Covers(universe, current)
      && forall i, j :: 0 <= i < |subscribers| && i < j < |subscribers| ==> subscribers[i] != subscribers[j]
    }

    method Subscribe() returns (subscriber: ScannerStreamSubscriber)
      requires Valid()
      modifies this`subscribers
      ensures Valid() && fresh(subscriber) && subscribers == old(subscribers) + [subscriber]
      ensures subscriber.messages == SnapshotMessages(universe, current)
    {
      subscriber := new ScannerStreamSubscriber(SnapshotMessages(universe, current));
      subscribers := subscribers + [subscriber];
    }

    method EnqueueToAll(message: ScannerMessage)
      requires Valid()
      modifies subscribers
      ensures forall k :: 0 <= k < |subscribers| ==> subscribers[k].messages == old(subscribers[k].messages) + [message]
    {
      for i := 0 to |subscribers|
        invariant forall k :: 0 <= k < i ==> subscribers[k].messages == old(subscribers[k].messages) + [message]
        invariant forall k :: i <= k < |subscribers| ==> subscribers[k].messages == old(subscribers[k].messages)
      {
        subscribers[i].Enqueue(message);
      }
    }

    method Publish(quote: ConsolidatedQuote) returns (error: Option<ScannerError>)
      requires Valid()
      modifies this`current, subscribers
      ensures Valid()
      ensures match PublishQuote(universe, old(current), quote)
        case Failure(reason) =>
          error == Some(reason) && current == old(current)
          && forall k :: 0 <= k < |subscribers| ==> subscribers[k].messages == old(subscribers[k].messages)
        case Success(p) =>
          error == None && current == p.cache
          && forall k :: 0 <= k < |subscribers| ==> subscribers[k].messages == old(subscribers[k].messages) + p.sent
    {
      if quote.product !in universe {
        return Some(OutsideUniverse);
      }
      var message := UpdateMessage(quote);
      if message.Failure? {
        return Some(message.error);
      }
      if quote.product in current && current[quote.product] == message.value {
        return None;
      }
      current := current[quote.product := message.value];
      EnqueueToAll(message.value);
      return None;
    }
  }

  class ScannerStatePublisher {
    const store: MarketStateStore
    const hub: ScannerStreamHub

    constructor (store: MarketStateStore, hub: ScannerStreamHub)
      modifies store
      ensures this.store == store && this.hub == hub
      ensures store.states == ConnectAll(old(store.states), hub.universe)
    {
      this.store := store;
      this.hub := hub;
      for i := 0 to |hub.universe|
        invariant store.states == ConnectAll(old(store.states), hub.universe[..i])
      {
        assert hub.universe[..i + 1][..i] == hub.universe[..i];
        var first := store.SetStatus(MarketKey(Coinbase, hub.universe[i]), Connecting);
        var second := store.SetStatus(MarketKey(Kraken, hub.universe[i]), Connecting);
      }
      assert hub.universe[..|hub.universe|] == hub.universe;
    }

    method Record(e: VenueSessionEvent) returns (refused: Option<StoreError>)
      modifies store
      ensures match Received(old(store.states), e)
        case Success(next) => refused == None && store.states == next
        case Failure(reason) => refused == Some(reason) && store.states == old(store.states)
    {
      match e {
        case Trusted(event) => refused := store.Apply(event);
        case Status(key, status) => refused := store.SetStatus(key, status);
      }
    }

    method PublishProduct(product: Product) returns (error: Option<ScannerError>)
      requires hub.Valid() && product in hub.universe
      modifies hub`current, hub.subscribers
      ensures hub.Valid()
      ensures var o := Requote(hub.universe, store.states, old(hub.current), product);
        && error == o.error && hub.current == o.cache
        && forall k :: 0 <= k < |hub.subscribers| ==>
             hub.subscribers[k].messages == old(hub.subscribers[k].messages) + o.sent
    {
      var quote := Calculate(product, ProductStates(store.states, product));
      if quote.Failure? {
        return Some(QuoteRefused(quote.error));
      }
      error := hub.Publish(quote.value);
    }

    method Apply(e: VenueSessionEvent) returns (error: Option<ScannerError>)
      requires hub.Valid()
      modifies store, hub`current, hub.subscribers
      ensures hub.Valid()
      ensures var o := ApplyEvent(hub.universe, old(store.states), old(hub.current), e);
        && error == o.error && store.states == o.states && hub.current == o.cache
        && forall k :: 0 <= k < |hub.subscribers| ==>
             hub.subscribers[k].messages == old(hub.subscribers[k].messages) + o.sent
    {
      if e.Market().product !in hub.universe {
        return Some(OutsideUniverse);
      }
      var refused := Record(e);
      if refused.Some? {
        return Some(Refused(refused.value));
      }
      error := PublishProduct(e.Market().product);
    }
  }

  // ---------- Agreement ----------

  predicate KnowsBothVenues(states: Store, product: Product) {
    MarketKey(Coinbase, product) in states && MarketKey(Kraken, product) in states
  }

  function Recomputed(states: Store, product: Product): ScannerMessage {
    ScannerUpdate(QuoteFor(product, ProductStates(states, product)))
  }

  /** Each product's cached message is the quote recomputed from the store. */
  predicate Agrees(universe: Universe, states: Store, cache: Cache) {
    && StoreValid(states)
    && forall i :: 0 <= i < |universe| ==>
         && KnowsBothVenues(states, universe[i])
         && universe[i] in cache && cache[universe[i]] == Recomputed(states, universe[i])
  }

  predicate IsConnecting(states: Store, market: MarketKey) {
    market in states && states[market].status == Connecting
  }

  lemma {:induction false} ConnectOne(states: Store, market: MarketKey, other: MarketKey)
    requires StoreValid(states)
    ensures StoreValid(Connect(states, market))
    ensures IsConnecting(Connect(states, market), market)
    ensures IsConnecting(states, other) ==> IsConnecting(Connect(states, market), other)
  {}

  lemma {:induction false} ConnectAllStates(states: Store, universe: Universe, p: Product)
    requires StoreValid(states)
    ensures var connected := ConnectAll(states, universe);
      && StoreValid(connected)
      && (p in universe ==>
            IsConnecting(connected, MarketKey(Coinbase, p)) && IsConnecting(connected, MarketKey(Kraken, p)))
  {
    if universe != [] {
      var front, last := universe[..|universe| - 1], universe[|universe| - 1];
      var coinbase, kraken := MarketKey(Coinbase, last), MarketKey(Kraken, last);
      var before := ConnectAll(states, front);
      ConnectAllStates(states, front, p);
      ConnectOne(before, coinbase, MarketKey(Coinbase, p));
      ConnectOne(before, coinbase, MarketKey(Kraken, p));
      ConnectOne(Connect(before, coinbase), kraken, MarketKey(Coinbase, p));
      ConnectOne(Connect(before, coinbase), kraken, MarketKey(Kraken, p));
      assert universe == front + [last];
    }
  }

  lemma {:induction false} ConnectingQuote(states: Store, p: Product)
    requires StoreValid(states)
    requires IsConnecting(states, MarketKey(Coinbase, p)) && IsConnecting(states, MarketKey(Kraken, p))
    ensures QuoteFor(p, ProductStates(states, p)) == InitialQuote(p)
  {
    var one, two := states[MarketKey(Coinbase, p)], states[MarketKey(Kraken, p)];
    var known := ProductStates(states, p);
    assert known == [one, two] && known[..1] == [one] && [one][..0] == [];
    assert BestBidOf([one]) == None && BestAskOf([one]) == None;
    assert Tops([one]) == map[Coinbase := CONNECTING_TOP];
    assert Tops(known) == map[Coinbase := CONNECTING_TOP, Kraken := CONNECTING_TOP];
  }

  /** A fresh hub agrees with the store as the publisher leaves it, whatever the store held before. */
  lemma {:induction false} InitiallyAgrees(states: Store, universe: Universe)
    requires StoreValid(states)
    ensures Agrees(universe, ConnectAll(states, universe), InitialCache(universe))
  {
    ConnectAllStates(states, universe, Product("", ""));
    forall i | 0 <= i < |universe|
      ensures KnowsBothVenues(ConnectAll(states, universe), universe[i])
      ensures Recomputed(ConnectAll(states, universe), universe[i]) == ScannerUpdate(InitialQuote(universe[i]))
    {
      ConnectAllStates(states, universe, universe[i]);
      ConnectingQuote(ConnectAll(states, universe), universe[i]);
    }
  }

  /** One event leaves every other product's states alone. */
  lemma {:induction false} OtherProductsUntouched(states: Store, e: VenueSessionEvent, p: Product)
    requires Received(states, e).Success?
    ensures p != e.Market().product ==> ProductStates(Received(states, e).value, p) == ProductStates(states, p)
    ensures KnowsBothVenues(states, p) ==> KnowsBothVenues(Received(states, e).value, p)
  {}

  /** What one recalculation does when the other products already agree. */
  lemma {:induction false} RequoteAgrees(universe: Universe, states: Store, cache: Cache, product: Product)
    requires StoreValid(states) && product in universe && product in cache
    requires forall i :: 0 <= i < |universe| ==> KnowsBothVenues(states, universe[i]) && universe[i] in cache
    requires forall i :: 0 <= i < |universe| && universe[i] != product ==>
      cache[universe[i]] == Recomputed(states, universe[i])
    ensures var o := Requote(universe, states, cache, product);
      && o.error == None && o.states == states && Agrees(universe, states, o.cache)
      && (o.sent == [] ==> o.cache == cache)
      && (o.sent != [] ==>
            o.sent == [Recomputed(states, product)] && o.cache == cache[product := o.sent[0]]
              && cache[product] != o.sent[0])
  {
    StoreNeverRefused(states, product);
    var k :| 0 <= k < |universe| && universe[k] == product;
    assert KnowsBothVenues(states, universe[k]);
    assert UpdateMessage(QuoteFor(product, ProductStates(states, product))) == Success(Recomputed(states, product));
  }

  lemma {:induction false} ReceivedStoreValid(states: Store, e: VenueSessionEvent)
    requires StoreValid(states) && Received(states, e).Success?
    ensures StoreValid(Received(states, e).value)
  {}

  /** An event of the universe is refused only by the store; quote and serialisation never fail. */
  lemma {:induction false} ApplyKeepsAgreement(universe: Universe, states: Store, cache: Cache, e: VenueSessionEvent)
    requires Agrees(universe, states, cache)
    ensures var o := ApplyEvent(universe, states, cache, e);
      && Agrees(universe, o.states, o.cache)
      && (o.error == None || o.error == Some(OutsideUniverse) || o.error.value.Refused?)
      && (e.Market().product in universe ==> o.error != Some(OutsideUniverse))
      && (e.Market().product in universe && Received(states, e).Success? ==> o.error == None)
      && (o.sent == [] ==> o.cache == cache)
      && (o.sent != [] ==>
            && o.sent == [Recomputed(o.states, e.Market().product)]
            && e.Market().product in universe && e.Market().product in cache
            && o.cache == cache[e.Market().product := o.sent[0]] && cache[e.Market().product] != o.sent[0])
  {
    var product := e.Market().product;
    if product in universe && Received(states, e).Success? {
      var next := Received(states, e).value;
      ReceivedStoreValid(states, e);
      forall i | 0 <= i < |universe|
        ensures KnowsBothVenues(next, universe[i]) && universe[i] in cache
        ensures universe[i] != product ==> cache[universe[i]] == Recomputed(next, universe[i])
      {
        assert KnowsBothVenues(states, universe[i]);
        OtherProductsUntouched(states, e, universe[i]);
      }
      var k :| 0 <= k < |universe| && universe[k] == product;
      RequoteAgrees(universe, next, cache, product);
    }
  }

  /**
   The publisher throws for an event outside the universe, a book event without a book and
   a status that claims a market Live, and for nothing else; a refused event changes nothing.
   */
  lemma {:induction false} ApplyFailsIff(universe: Universe, states: Store, cache: Cache, e: VenueSessionEvent)
    requires Agrees(universe, states, cache)
    ensures var o := ApplyEvent(universe, states, cache, e);
      && o.error == (if e.Market().product !in universe then Some(OutsideUniverse)
                     else if e.Trusted? && !e.event.kind.Invalidated? && e.event.book.None? then
                       Some(Refused(MissingBook))
                     else if e.Status? && e.status == Live then Some(Refused(LiveNeedsBook))
                     else None)
      && (o.error.Some? ==> o.states == states && o.cache == cache && o.sent == [])
  {
    ApplyKeepsAgreement(universe, states, cache, e);
  }

  // ---------- What a subscriber sees ----------

  predicate IsUpdateOf(m: ScannerMessage, product: Product) {
    m.ScannerUpdate? && m.quote.product == product
  }

  /** The newest message about one product. */
  function Latest(log: seq<ScannerMessage>, product: Product): Option<ScannerMessage> {
    if log == [] then None
    else if IsUpdateOf(log[|log| - 1], product) then Some(log[|log| - 1])
    else Latest(log[..|log| - 1], product)
  }

  /** No message repeats the one before it about the same product. */
  predicate NoRepeats(log: seq<ScannerMessage>) {
    log != [] ==>
      && NoRepeats(log[..|log| - 1])
      && (log[|log| - 1].ScannerUpdate? ==>
            Latest(log[..|log| - 1], log[|log| - 1].quote.product) != Some(log[|log| - 1]))
  }

  lemma {:induction false} LatestSnoc(log: seq<ScannerMessage>, m: ScannerMessage, product: Product)
    ensures Latest(log + [m], product) == if IsUpdateOf(m, product) then Some(m) else Latest(log, product)
    ensures NoRepeats(log + [m]) <==>
      NoRepeats(log) && (m.ScannerUpdate? ==> Latest(log, m.quote.product) != Some(m))
  {
    assert (log + [m])[..|log|] == log;
  }

  lemma {:induction false} NoRepeatsPrefix(log: seq<ScannerMessage>, n: nat)
    requires NoRepeats(log) && n <= |log|
    ensures NoRepeats(log[..n])
    decreases |log|
  {
    if n < |log| {
      NoRepeatsPrefix(log[..|log| - 1], n);
      assert log[..|log| - 1][..n] == log[..n];
    } else {
      assert log[..n] == log;
    }
  }

  /** The cache files every message under its own product. */
  predicate Filed(universe: Universe, cache: Cache) {
    forall i :: 0 <= i < |universe| ==> universe[i] in cache && IsUpdateOf(cache[universe[i]], universe[i])
  }

  lemma {:induction false} FirstOfItsProduct(log: seq<ScannerMessage>, m: ScannerMessage, p: Product, product: Product)
    requires NoRepeats(log) && IsUpdateOf(m, p) && Latest(log, p) == None
    ensures NoRepeats(log + [m])
    ensures Latest(log + [m], product) == if product == p then Some(m) else Latest(log, product)
  {
    LatestSnoc(log, m, product);
  }

  lemma {:induction false} DistinctFront(front: Universe, p: Product)
    requires Distinct(front + [p])
    ensures Distinct(front) && p !in front
  {
    var all := front + [p];
    forall i | 0 <= i < |front| ensures front[i] != p {
      assert all[i] == front[i] && all[|front|] == p;
    }
    forall i, j | 0 <= i < |front| && i < j < |front| ensures front[i] != front[j] {
      assert all[i] == front[i] && all[j] == front[j];
    }
  }

  lemma {:induction false} SnapshotLog(first: ScannerMessage, universe: Universe, cache: Cache, product: Product)
    requires first.ScannerHello? && Distinct(universe) && Filed(universe, cache)
    ensures Covers(universe, cache)
    ensures var log := CachedAfter(first, universe, cache);
      NoRepeats(log) && Latest(log, product) == if product in universe then Some(cache[product]) else None
  {
    if universe == [] {
      LatestSnoc([], first, product);
      assert [] + [first] == [first];
    } else {
      var front, p := universe[..|universe| - 1], universe[|universe| - 1];
      assert universe == front + [p];
      DistinctFront(front, p);
      SnapshotLog(first, front, cache, product);
      SnapshotLog(first, front, cache, p);
      FirstOfItsProduct(CachedAfter(first, front, cache), cache[p], p, product);
    }
  }

  /** One subscription: what has been taken from its queue, and what still waits there. */
  datatype Feed = Feed(taken: seq<ScannerMessage>, queue: seq<ScannerMessage>)

  datatype ScannerState = ScannerState(states: Store, cache: Cache, feeds: seq<Feed>)

  datatype ScannerAction = Event(event: VenueSessionEvent) | Subscribe | TakeMessage(i: nat)

  predicate UpToDate(universe: Universe, cache: Cache, feed: Feed) {
    && NoRepeats(feed.taken + feed.queue)
    && forall i :: 0 <= i < |universe| ==>
         universe[i] in cache && Latest(feed.taken + feed.queue, universe[i]) == Some(cache[universe[i]])
  }

  predicate ScannerValid(universe: Universe, s: ScannerState) {
    && Distinct(universe) && Agrees(universe, s.states, s.cache)
    && forall i :: 0 <= i < |s.feeds| ==> UpToDate(universe, s.cache, s.feeds[i])
  }

  function AllReceive(feeds: seq<Feed>, sent: seq<ScannerMessage>): seq<Feed> {
    seq(|feeds|, i requires 0 <= i < |feeds| => feeds[i].(queue := feeds[i].queue + sent))
  }

  function ScannerStep(universe: Universe, s: ScannerState, a: ScannerAction): ScannerState
    requires Covers(universe, s.cache)
  {
    match a
    case Event(e) =>
      var o := ApplyEvent(universe, s.states, s.cache, e);
      ScannerState(o.states, o.cache, AllReceive(s.feeds, o.sent))
    case Subscribe => s.(feeds := s.feeds + [Feed([], SnapshotMessages(universe, s.cache))])
    case TakeMessage(i) =>
      if i >= |s.feeds| || s.feeds[i].queue == [] then s
      else
        var f := s.feeds[i];
        s.(feeds := s.feeds[i := Feed(f.taken + [f.queue[0]], f.queue[1..])])
  }

  lemma {:induction false} SentKeepsUpToDate(
      universe: Universe, cache: Cache, feed: Feed, product: Product, m: ScannerMessage)
    requires UpToDate(universe, cache, feed) && product in universe && IsUpdateOf(m, product)
    requires product in cache && cache[product] != m
    ensures UpToDate(universe, cache[product := m], feed.(queue := feed.queue + [m]))
  {
    var log := feed.taken + feed.queue;
    assert feed.taken + (feed.queue + [m]) == log + [m];
    LatestSnoc(log, m, product);
    var k :| 0 <= k < |universe| && universe[k] == product;
    forall i | 0 <= i < |universe| ensures Latest(log + [m], universe[i]) == Some(cache[product := m][universe[i]]) {
      LatestSnoc(log, m, universe[i]);
    }
  }

  lemma {:induction false} EventKeepsValid(universe: Universe, s: ScannerState, e: VenueSessionEvent)
    requires ScannerValid(universe, s)
    ensures ScannerValid(universe, ScannerStep(universe, s, Event(e)))
  {
    var o := ApplyEvent(universe, s.states, s.cache, e);
    ApplyKeepsAgreement(universe, s.states, s.cache, e);
    var feeds := AllReceive(s.feeds, o.sent);
    forall i | 0 <= i < |feeds| ensures UpToDate(universe, o.cache, feeds[i]) {
      if o.sent == [] {
        assert s.feeds[i].queue + [] == s.feeds[i].queue;
      } else {
        SentKeepsUpToDate(universe, s.cache, s.feeds[i], e.Market().product, o.sent[0]);
      }
    }
  }

  lemma {:induction false} SubscribeKeepsValid(universe: Universe, s: ScannerState)
    requires ScannerValid(universe, s)
    ensures UpToDate(universe, s.cache, Feed([], SnapshotMessages(universe, s.cache)))
  {
    var snapshot := SnapshotMessages(universe, s.cache);
    assert [] + snapshot == snapshot;
    forall i | 0 <= i < |universe| ensures Latest(snapshot, universe[i]) == Some(s.cache[universe[i]]) {
      SnapshotLog(ScannerHello(universe), universe, s.cache, universe[i]);
    }
    SnapshotLog(ScannerHello(universe), universe, s.cache, Product("", ""));
  }

  lemma {:induction false} TakeKeepsUpToDate(universe: Universe, cache: Cache, f: Feed)
    requires UpToDate(universe, cache, f) && f.queue != []
    ensures UpToDate(universe, cache, Feed(f.taken + [f.queue[0]], f.queue[1..]))
  {
    assert f.taken + [f.queue[0]] + f.queue[1..] == f.taken + f.queue;
  }

  lemma {:induction false} StepKeepsValid(universe: Universe, s: ScannerState, a: ScannerAction)
    requires ScannerValid(universe, s)
    ensures ScannerValid(universe, ScannerStep(universe, s, a))
  {
    match a {
      case Event(e) => EventKeepsValid(universe, s, e);
      case Subscribe => SubscribeKeepsValid(universe, s);
      case TakeMessage(i) =>
        if i < |s.feeds| && s.feeds[i].queue != [] {
          TakeKeepsUpToDate(universe, s.cache, s.feeds[i]);
        }
    }
  }

  function ScannerRun(states: Store, universe: Universe, actions: seq<ScannerAction>): (s: ScannerState)
    requires StoreValid(states) && Distinct(universe)
    ensures ScannerValid(universe, s)
  {
    if actions == [] then
      InitiallyAgrees(states, universe);
      ScannerState(ConnectAll(states, universe), InitialCache(universe), [])
    else
      var s := ScannerRun(states, universe, actions[..|actions| - 1]);
      StepKeepsValid(universe, s, actions[|actions| - 1]);
      ScannerStep(universe, s, actions[|actions| - 1])
  }

  /**
   From a fresh hub, after any events, subscriptions and reads: the cache is the quote
   recomputed from the store, a drained subscriber's newest message of each product is
   that same message, and no subscriber ever sees two equal messages of one product in
   a row.
   */
  lemma {:induction false} SubscribersSeeRecomputedQuotes(
      states: Store, universe: Universe, actions: seq<ScannerAction>, product: Product, i: nat)
    requires StoreValid(states) && Distinct(universe) && product in universe
    ensures var s := ScannerRun(states, universe, actions);
      && product in s.cache && s.cache[product] == Recomputed(s.states, product)
      && (i < |s.feeds| ==>
            && NoRepeats(s.feeds[i].taken)
            && (s.feeds[i].queue == [] ==> Latest(s.feeds[i].taken, product) == Some(Recomputed(s.states, product))))
  {
    var s := ScannerRun(states, universe, actions);
    var k :| 0 <= k < |universe| && universe[k] == product;
    if i < |s.feeds| {
      var f := s.feeds[i];
      NoRepeatsPrefix(f.taken + f.queue, |f.taken|);
      assert (f.taken + f.queue)[..|f.taken|] == f.taken;
      assert f.queue == [] ==> f.taken + f.queue == f.taken;
    }
  }
}
