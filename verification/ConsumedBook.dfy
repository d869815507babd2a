/**
 What the store holds when a session has been read to its end and recovery has not begun:
 each market is Live exactly when its own session says so, with the book of everything
 the session took, in any interleaving with the other venue.
 */
module ConsumedBooks {
  import opened Wrappers
  import opened VenueEvents
  import opened MarketStateStores
  import opened SequenceTrackers
  import opened BookReconstructors
  import opened CoinbaseSessions
  import opened KrakenOutputs
  import opened KrakenAdapter
  import opened KrakenSessions
  import opened VenueRunners
  import opened VenueFeeds
  import opened StoredBooks
  import opened VenueSinks
  import opened KrakenTrust

  lemma {:induction false} StoreConcat(states: Store, a: seq<VenueSessionEvent>, b: seq<VenueSessionEvent>)
    ensures StoreAfter(states, a + b) == StoreAfter(StoreAfter(states, a), b)
  {
    if b == [] {
      assert a + b == a;
    } else {
      var front, e := b[..|b| - 1], b[|b| - 1];
      StoreConcat(states, a, front);
      assert a + b == a + front + [e] && b == front + [e];
      StoreSnoc(states, a + front, e);
      StoreSnoc(StoreAfter(states, a), front, e);
    }
  }

  /** Interleaving with the other venue changes nothing about a market. */
  lemma {:induction false} OwnVenueOnly(
      states: Store, log: seq<VenueSessionEvent>, own: seq<VenueSessionEvent>, market: MarketKey)
    requires OfVenue(log, market.venue) == own
    ensures var all, alone := StoreAfter(states, log), StoreAfter(states, own);
      (market in all <==> market in alone) && (market in all ==> all[market] == alone[market])
  {
    OtherEventsDoNotMatter(states, log, market);
    OtherEventsDoNotMatter(states, own, market);
    AboutOfVenue(log, market);
  }

  // ---------- Coinbase ----------

  /** No status of the market follows a trusted event of it. */
  predicate NoLateStatus(log: seq<VenueSessionEvent>, market: MarketKey) {
    forall i, j :: 0 <= i < |log| && i < j < |log| && log[i].Trusted? && log[i].Market() == market ==>
      log[j].Market() != market || log[j].Trusted?
  }

  lemma {:induction false} NoLateStatusSnoc(log: seq<VenueSessionEvent>, e: VenueSessionEvent, market: MarketKey)
    requires NoLateStatus(log, market) && (e.Market() != market || e.Trusted?)
    ensures NoLateStatus(log + [e], market)
  {}

  lemma {:induction false} MessagesAddNoStatus(
      s: SessionState, ms: seq<BookMessage>, status: SequenceStatus, market: MarketKey)
    requires Known(s) && NoLateStatus(s.pending, market) && ProcessMessages(s, ms, status).Some?
    ensures NoLateStatus(ProcessMessages(s, ms, status).value.pending, market)
  {
    if ms != [] {
      var front, m := ms[..|ms| - 1], ms[|ms| - 1];
      MessagesAddNoStatus(s, front, status, market);
      var mid := ProcessMessages(s, front, status).value;
      if m.product in mid.books {
        NoLateStatusSnoc(
          mid.pending, Trusted(TrustedEvent(m, Reconstruct(mid.books[m.product], m, status).book)), market);
      }
    }
  }

  lemma {:induction false} MessagesRejectNothing(s: SessionState, ms: seq<BookMessage>, status: SequenceStatus)
    requires Known(s) && ProcessMessages(s, ms, status).Some?
    ensures ProcessMessages(s, ms, status).value.unsupported == s.unsupported
  {
    if ms != [] {
      MessagesRejectNothing(s, ms[..|ms| - 1], status);
    }
  }

  lemma {:induction false} InvalidateAddsNoStatus(s: SessionState, products: seq<Product>, market: MarketKey)
    requires Known(s) && (forall p :: p in products ==> p in s.books) && NoLateStatus(s.pending, market)
    ensures NoLateStatus(Invalidate(s, products).pending, market)
  {
    if products != [] {
      var front, p := products[..|products| - 1], products[|products| - 1];
      InvalidateAddsNoStatus(s, front, market);
      NoLateStatusSnoc(
        Invalidate(s, front).pending, Trusted(TrustedBookEvent(Invalidated, Market(p), 0, None)), market);
    }
  }

  lemma {:induction false} FrameAddsNoStatus(s: SessionState, f: Frame, product: Product)
    requires Known(s) && ProcessFrame(s, f).Some? && product !in ProcessFrame(s, f).value.unsupported
    requires product !in s.unsupported ==> NoLateStatus(s.pending, Market(product))
    ensures NoLateStatus(ProcessFrame(s, f).value.pending, Market(product))
  {
    if f.Data? {
      var status := Classify(s.last, f.number).status;
      var observed := s.(last := Advance(s.last, f.number));
      if status == Gap {
        InvalidateKeeps(observed, s.universe);
        InvalidateAddsNoStatus(observed, s.universe, Market(product));
      } else {
        MessagesRejectNothing(observed, f.messages, status);
        MessagesAddNoStatus(observed, f.messages, status, Market(product));
      }
    } else if f.PermanentRejection? {
      NoLateStatusSnoc(s.pending, Status(Market(f.product), Unsupported), Market(product));
    }
  }

  lemma {:induction false} SessionAddsNoStatus(active: Universe, frames: seq<Frame>, product: Product)
    requires Consumed(active, frames).Some?
    ensures var s := Consumed(active, frames).value;
      product !in s.unsupported ==> NoLateStatus(s.pending, Market(product))
  {
    if frames == [] {
      StatusesOnly(Coinbase, active, {}, Connecting);
      StatusesOnly(Coinbase, active, {}, WaitingForSnapshot);
    } else {
      var front, f := frames[..|frames| - 1], frames[|frames| - 1];
      SessionAddsNoStatus(active, front, product);
      if product !in Consumed(active, frames).value.unsupported {
        FrameAddsNoStatus(Consumed(active, front).value, f, product);
      }
    }
  }

  lemma {:induction false} TrustedWitness(log: seq<VenueSessionEvent>, product: Product)
    requires TrustedOf(log, product) != []
    ensures exists i :: 0 <= i < |log| && log[i].Trusted? && log[i].Market() == Market(product)
  {
    var front, e := log[..|log| - 1], log[|log| - 1];
    if !(e.Trusted? && e.event.market == Market(product)) {
      TrustedWitness(front, product);
      var i :| 0 <= i < |front| && front[i].Trusted? && front[i].Market() == Market(product);
      assert log[i] == front[i];
    }
  }

  /** Books that start with a snapshot, and no status or invalidation behind them. */
  predicate OnlyBooks(events: seq<TrustedBookEvent>) {
    && (forall i :: 0 <= i < |events| ==> !events[i].kind.Invalidated? && events[i].book.Some?)
    && (events != [] ==> events[0].kind.Snapshot?)
  }

  lemma {:induction false} NoLateStatusFront(log: seq<VenueSessionEvent>, e: VenueSessionEvent, product: Product)
    requires NoLateStatus(log + [e], Market(product))
    ensures NoLateStatus(log, Market(product))
    ensures TrustedOf(log, product) != [] ==> e.Market() != Market(product) || e.Trusted?
  {
    var all := log + [e];
    forall i, j | 0 <= i < |log| && i < j < |log| && log[i].Trusted? && log[i].Market() == Market(product)
      ensures log[j].Market() != Market(product) || log[j].Trusted?
    {
      assert all[i] == log[i] && all[j] == log[j];
    }
    if TrustedOf(log, product) != [] {
      TrustedWitness(log, product);
      var i :| 0 <= i < |log| && log[i].Trusted? && log[i].Market() == Market(product);
      assert all[i] == log[i] && all[|log|] == e;
    }
  }

  lemma {:induction false} BooksMakeLive(states: Store, log: seq<VenueSessionEvent>, product: Product)
    requires NoLateStatus(log, Market(product))
    requires TrustedOf(log, product) != [] && OnlyBooks(TrustedOf(log, product))
    ensures IsLive(StoreAfter(states, log), Market(product))
  {
    var front, e := log[..|log| - 1], log[|log| - 1];
    assert log == front + [e];
    NoLateStatusFront(front, e, product);
    TrustedSnoc(front, e, product);
    StoreSnoc(states, front, e);
    var events, before := TrustedOf(log, product), TrustedOf(front, product);
    if before != [] {
      assert OnlyBooks(before) by {
        forall i | 0 <= i < |before| ensures !before[i].kind.Invalidated? && before[i].book.Some? {
          assert before[i] == events[i];
        }
        assert before[0] == events[0];
      }
      BooksMakeLive(states, front, product);
    }
    if e.Trusted? && e.event.market == Market(product) {
      assert events[|events| - 1] == e.event;
    }
  }

  lemma {:induction false} EventsForAreBooks(stream: seq<BookMessage>)
    requires stream != [] ==> stream[0].kind.SnapshotMessage?
    ensures |EventsFor(stream)| == |stream| && OnlyBooks(EventsFor(stream))
    ensures stream != [] ==>
      var last := EventsFor(stream)[|stream| - 1];
      last.book == Some(BookOf(stream)) && last.timestamp == stream[|stream| - 1].timestamp
  {
    if stream != [] {
      EventsForAreBooks(stream[..|stream| - 1]);
    }
  }

  lemma {:induction false} LatestIsLastTrusted(log: seq<VenueSessionEvent>, product: Product, i: nat)
    requires LatestOf(log, Market(product), i) && log[i].Trusted?
    ensures var events := TrustedOf(log, product); events != [] && events[|events| - 1] == log[i].event
  {
    var front, e := log[..|log| - 1], log[|log| - 1];
    assert log == front + [e];
    TrustedSnoc(front, e, product);
    if i < |front| {
      LatestIsLastTrusted(front, product, i);
    }
  }

  /** What is read from a session decides the market's state, whatever the store held before. */
  lemma {:induction false} EmissionsDecide(states: Store, active: Universe, wire: seq<Frame>, product: Product)
    requires Distinct(active) && product in active && AcceptableFor(Emissions(Open(active), wire), Market(product))
    ensures var taken := wire[..Survived(Open(active), wire)];
      && Consumed(active, taken).Some?
      && var s, stream, after :=
           Consumed(active, taken).value, Stream(taken, product), StoreAfter(states, Emissions(Open(active), wire));
         && (stream != [] && product !in s.unsupported && !s.reconnect ==> IsLive(after, Market(product)))
         && (!IsLive(states, Market(product)) && IsLive(after, Market(product)) ==>
               stream != [] && (s.reconnect ==> product in s.unsupported)
               && after[Market(product)].book == Some(BookOf(stream))
               && after[Market(product)].timestamp == stream[|stream| - 1].timestamp)
  {
    var log, taken := Emissions(Open(active), wire), wire[..Survived(Open(active), wire)];
    var stream := Stream(taken, product);
    EmissionsAreTheLog(active, wire);
    ReadersSeeTheStream(active, wire, product);
    StreamStartsWithSnapshot(taken, product);
    EventsForAreBooks(stream);
    var s := Consumed(active, taken).value;
    if stream != [] && product !in s.unsupported && !s.reconnect {
      SessionAddsNoStatus(active, taken, product);
      assert EventsFor(stream) + [] == EventsFor(stream);
      BooksMakeLive(states, log, product);
    }
    if !IsLive(states, Market(product)) && IsLive(StoreAfter(states, log), Market(product)) {
      var i := StoredIsLatest(states, log, Market(product));
      LatestIsLastTrusted(log, product, i);
    }
  }

  lemma {:induction false} AcceptableIn(
      before: seq<VenueSessionEvent>, log: seq<VenueSessionEvent>, market: MarketKey)
    requires AllAcceptable(before + log)
    ensures AcceptableFor(log, market)
  {
    forall j | 0 <= j < |log| ensures Acceptable(log[j]) {
      assert log[j] == (before + log)[|before| + j];
    }
  }

  lemma {:induction false} SessionAcceptable(universe: Universe, r: RunnerState, wire: seq<Frame>)
    requires AllAcceptable(r.sunk)
    ensures AllAcceptable(CoinbaseSession(universe, r, Some(wire)).sunk)
  {
    var active := ActiveProducts(universe, r.unsupported);
    if active != [] {
      StatusesAcceptable([], Coinbase, active, {}, Connecting);
      assert [] + Statuses(Coinbase, active, {}, Connecting) == Statuses(Coinbase, active, {}, Connecting);
      StatusesAcceptable(Statuses(Coinbase, active, {}, Connecting), Coinbase, active, {}, WaitingForSnapshot);
      DriveAcceptable(universe, r, Open(active), wire);
    }
  }

  /**
   A Coinbase connection read to its end, recovery not yet begun: a product that was not
   rejected before is Live exactly when its session has a stream for it, has not rejected
   it and has seen no gap; its stored book is then the replay of the whole stream.
   */
  lemma {:induction false} CoinbaseMarketHoldsItsStream(
      states: Store, universe: Universe, wires: seq<Option<seq<Frame>>>, wire: seq<Frame>,
      log: seq<VenueSessionEvent>, product: Product)
    requires Distinct(universe) && product in universe && !IsLive(states, Market(product))
    requires product !in RunCoinbase(universe, wires).unsupported
    requires OfVenue(log, Coinbase) == CoinbaseSession(universe, RunCoinbase(universe, wires), Some(wire)).sunk
    ensures var active := ActiveProducts(universe, RunCoinbase(universe, wires).unsupported);
      var taken := wire[..Survived(Open(active), wire)];
      && Consumed(active, taken).Some?
      && var s, stream, after := Consumed(active, taken).value, Stream(taken, product), StoreAfter(states, log);
         && (IsLive(after, Market(product)) <==> stream != [] && product !in s.unsupported && !s.reconnect)
         && (IsLive(after, Market(product)) ==>
               && after[Market(product)].book == Some(BookOf(stream))
               && after[Market(product)].timestamp == stream[|stream| - 1].timestamp)
  {
    var r := RunCoinbase(universe, wires);
    var active := ActiveProducts(universe, r.unsupported);
    var emitted := Emissions(Open(active), wire);
    var done := CoinbaseSession(universe, r, Some(wire));
    ActiveIsDistinct(universe, r.unsupported);
    CoinbaseSinkGetsEverything(universe, r, wire);
    CoinbaseSunkAcceptable(universe, wires);
    SessionAcceptable(universe, r, wire);
    AcceptableIn(r.sunk, emitted, Market(product));
    NoCoinbaseMarketLiveAsleep(states, universe, wires);
    EmissionsDecide(StoreAfter(states, r.sunk), active, wire, product);
    StoreConcat(states, r.sunk, emitted);
    OwnVenueOnly(states, log, done.sunk, Market(product));
    EmissionsAreTheLog(active, wire);
    ConsumedOrderly(universe, r.unsupported, active, wire[..Survived(Open(active), wire)]);
    RejectedGrows(r.unsupported, emitted);
    CoinbaseSessionKeeps(states, universe, r, Some(wire));
  }

  // ---------- Kraken ----------

  /** The store has the market as its adapter has it. */
  predicate Agree(states: Store, market: MarketKey, a: AdapterState, convert: Conversion) {
    && (IsLive(states, market) <==> a.status == Live)
    && (IsLive(states, market) ==>
          states[market].book == NumericBook(a.sides, convert) && states[market].timestamp == a.lastTimestamp)
  }

  lemma {:induction false} AfterOne(states: Store, e: VenueSessionEvent)
    ensures StoreAfter(states, [e])
      == match Received(states, e) case Success(next) => next case Failure(_) => states
    ensures StoreAfter(states, []) == states
  {
    assert [e][..0] == [];
  }

  lemma {:induction false} RejectedAgrees(states: Store, cfg: AdapterConfig, a: AdapterState)
    ensures var event := EventFor(cfg, a, Rejected);
      event.Some?
      && Agree(
           StoreAfter(states, [Trusted(event.value)]), KrakenMarket(cfg.product), After(cfg, a, Rejected), cfg.convert)
  {
    AfterOne(states, Trusted(EventFor(cfg, a, Rejected).value));
  }

  lemma {:induction false} AcceptedAgrees(states: Store, cfg: AdapterConfig, a: AdapterState, b: KrakenBook.Batch)
    requires Agree(states, KrakenMarket(cfg.product), a, cfg.convert) && (b.snapshot || a.status == Live)
    requires NumericBook(NextSides(cfg, a, b), cfg.convert).Some?
    ensures var event := EventFor(cfg, a, Accepted(b));
      event.Some?
      && Agree(
           StoreAfter(states, [Trusted(event.value)]), KrakenMarket(cfg.product), After(cfg, a, Accepted(b)),
           cfg.convert)
  {
    AcceptedIsReported(cfg, a, b);
    AfterOne(states, Trusted(EventFor(cfg, a, Accepted(b)).value));
  }

  /** The adapter's event moves the store as the message moves the adapter. */
  lemma {:induction false} MessageAgrees(
      states: Store, cfg: AdapterConfig, a: AdapterState, raw: string, m: ParsedMessage)
    requires Agree(states, KrakenMarket(cfg.product), a, cfg.convert)
    ensures var attempt := Decide(cfg, a, raw, m);
      var log := match EventFor(cfg, a, attempt) case None => [] case Some(event) => [Trusted(event)];
      Agree(StoreAfter(states, log), KrakenMarket(cfg.product), After(cfg, a, attempt), cfg.convert)
  {
    match Decide(cfg, a, raw, m) {
      case Ignored =>
        assert StoreAfter(states, []) == states;
      case Rejected =>
        RejectedAgrees(states, cfg, a);
      case Accepted(b) =>
        AcceptedIff(cfg, a, raw, m, b);
        AcceptedAgrees(states, cfg, a, b);
    }
  }

  /** Events of other markets, and statuses of a market that is not Live, keep the agreement. */
  lemma {:induction false} OtherAgrees(
      states: Store, e: VenueSessionEvent, market: MarketKey, a: AdapterState, convert: Conversion)
    requires Agree(states, market, a, convert)
    requires e.Market() != market || (e.Status? && a.status != Live)
    ensures Agree(StoreAfter(states, [e]), market, a, convert)
  {
    AfterOne(states, e);
  }

  /** A status of the market, once its adapter has been reset. */
  lemma {:induction false} SilencedAgrees(
      states: Store, e: VenueSessionEvent, a: AdapterState, convert: Conversion)
    requires e.Status? && e.status != Live && a.status != Live
    ensures Agree(StoreAfter(states, [e]), e.Market(), a, convert)
  {
    AfterOne(states, e);
  }

  /** What one frame emits and queues. */
  function FrameAll(env: Environment, s: KrakenState, f: KrakenFrame): seq<VenueSessionEvent>
    requires Dispatches(s) && FrameStep(env, s, f).Some?
  {
    KrakenReaders.FrameLog(env, s, f) + FrameStep(env, s, f).value.pending
  }

  lemma {:induction false} BookFrameAgrees(
      states: Store, env: Environment, s: KrakenState, catalog: Catalog, f: KrakenFrame, symbol: string)
    requires Dispatches(s) && OneSymbolEach(s, catalog) && symbol in s.byNative && s.pending == [] && f.BookFrame?
    requires FrameStep(env, s, f).Some?
    requires Agree(states, KrakenMarket(s.byNative[symbol]), s.adapters[s.byNative[symbol]], env.convert)
    ensures Agree(
      StoreAfter(states, FrameAll(env, s, f)), KrakenMarket(s.byNative[symbol]),
      FrameStep(env, s, f).value.adapters[s.byNative[symbol]], env.convert)
  {
    var p := s.byNative[symbol];
    var log := KrakenReaders.FrameLog(env, s, f);
    assert log + [] == log;
    if f.symbol == symbol {
      MessageAgrees(states, AdapterConfigFor(env, p, symbol), s.adapters[p], f.raw, f.parsed);
    } else {
      assert s.byNative[f.symbol] != p;
      if log == [] {
        assert StoreAfter(states, []) == states;
      } else {
        OtherAgrees(states, log[0], KrakenMarket(p), s.adapters[p], env.convert);
        assert log == [log[0]];
      }
    }
  }

  /** An acknowledgement queues at most one status of its product, of which the adapter is not Live then. */
  lemma {:induction false} AcknowledgementQueues(env: Environment, s: KrakenState, f: KrakenFrame)
    requires Dispatches(s) && s.pending == [] && f.Acknowledgement? && FrameStep(env, s, f).Some?
    ensures f.symbol in s.byNative && KrakenReaders.FrameLog(env, s, f) == []
    ensures var q, next := s.byNative[f.symbol], FrameStep(env, s, f).value;
      && q in next.adapters && next.adapters == s.adapters[q := next.adapters[q]]
      && (next.pending == [] ==> next.adapters[q] == s.adapters[q])
      && (next.pending != [] ==>
            next.adapters[q].status != Live
            && (next.pending == [StatusOf(q, Unsupported)] || next.pending == [StatusOf(q, WaitingForSnapshot)]))
  {}

  lemma {:induction false} AcknowledgementAgrees(
      states: Store, env: Environment, s: KrakenState, catalog: Catalog, f: KrakenFrame, symbol: string)
    requires Dispatches(s) && OneSymbolEach(s, catalog) && symbol in s.byNative && s.pending == []
    requires f.Acknowledgement? && FrameStep(env, s, f).Some?
    requires Agree(states, KrakenMarket(s.byNative[symbol]), s.adapters[s.byNative[symbol]], env.convert)
    ensures Agree(
      StoreAfter(states, FrameAll(env, s, f)), KrakenMarket(s.byNative[symbol]),
      FrameStep(env, s, f).value.adapters[s.byNative[symbol]], env.convert)
  {
    AcknowledgementQueues(env, s, f);
    var p, q := s.byNative[symbol], s.byNative[f.symbol];
    var next := FrameStep(env, s, f).value;
    assert FrameAll(env, s, f) == next.pending;
    if next.pending == [] {
      assert StoreAfter(states, []) == states;
    } else {
      var e := next.pending[0];
      assert next.pending == [e];
      if q == p {
        SilencedAgrees(states, e, next.adapters[p], env.convert);
      } else {
        OtherAgrees(states, e, KrakenMarket(p), s.adapters[p], env.convert);
      }
    }
  }

  lemma {:induction false} FrameAgrees(
      states: Store, env: Environment, s: KrakenState, catalog: Catalog, f: KrakenFrame, symbol: string)
    requires Dispatches(s) && OneSymbolEach(s, catalog) && symbol in s.byNative && s.pending == []
    requires FrameStep(env, s, f).Some?
    requires Agree(states, KrakenMarket(s.byNative[symbol]), s.adapters[s.byNative[symbol]], env.convert)
    ensures Agree(
      StoreAfter(states, FrameAll(env, s, f)), KrakenMarket(s.byNative[symbol]),
      FrameStep(env, s, f).value.adapters[s.byNative[symbol]], env.convert)
  {
    if f.BookFrame? {
      BookFrameAgrees(states, env, s, catalog, f, symbol);
    } else if f.Acknowledgement? {
      AcknowledgementAgrees(states, env, s, catalog, f, symbol);
    } else {
      assert [] + s.pending == [] && StoreAfter(states, []) == states;
    }
  }

  /** The adapter once it has taken all inputs among the frames. */
  function AdapterAfter(env: Environment, s: KrakenState, symbol: string, frames: seq<KrakenFrame>): AdapterState
    requires symbol in s.byNative
  {
    KrakenAdapter.Run(AdapterConfigFor(env, s.byNative[symbol], symbol), InputsFor(frames, symbol))
  }

  /** A session that goes on from a state whose queue is told ends in agreement. */
  predicate EndsInAgreement(
      states: Store, env: Environment, s: KrakenState, done: seq<KrakenFrame>, wire: seq<KrakenFrame>, symbol: string)
    requires Dispatches(s) && symbol in s.byNative
  {
    Agree(
      StoreAfter(states, KrakenReaders.Emissions(env, s, wire)), KrakenMarket(s.byNative[symbol]),
      AdapterAfter(env, s, symbol, done + wire[..KrakenReaders.Survived(env, s, wire)]), env.convert)
  }

  lemma {:induction false} PopAgrees(
      states: Store, env: Environment, s: KrakenState, done: seq<KrakenFrame>, wire: seq<KrakenFrame>, symbol: string)
    requires Dispatches(s) && symbol in s.byNative && s.pending != []
    requires EndsInAgreement(
      StoreAfter(states, [s.pending[0]]), env, s.(pending := s.pending[1..]), done, wire, symbol)
    ensures EndsInAgreement(states, env, s, done, wire, symbol)
  {
    var e, next := s.pending[0], s.(pending := s.pending[1..]);
    assert KrakenReaders.Survived(env, s, wire) == KrakenReaders.Survived(env, next, wire) by {
      assert next.(pending := []) == s.(pending := []);
    }
    KrakenReaders.EmissionsPop(env, s, wire);
    StoreConcat(states, [e], KrakenReaders.Emissions(env, next, wire));
  }

  lemma {:induction false} StepAgrees(
      states: Store, env: Environment, s: KrakenState, done: seq<KrakenFrame>, wire: seq<KrakenFrame>, symbol: string)
    requires Dispatches(s) && symbol in s.byNative
    requires s.pending == [] && !s.reconnect && wire != [] && FrameStep(env, s, wire[0]).Some?
    requires FrameStep(env, s, wire[0]).value.byNative == s.byNative
    requires EndsInAgreement(
      StoreAfter(states, KrakenReaders.FrameLog(env, s, wire[0])), env, FrameStep(env, s, wire[0]).value,
      done + [wire[0]], wire[1..], symbol)
    ensures EndsInAgreement(states, env, s, done, wire, symbol)
  {
    var next := FrameStep(env, s, wire[0]).value;
    KrakenReaders.EmissionsStep(env, s, wire);
    KrakenReaders.SurvivedStep(env, s, done, wire);
    StoreConcat(states, KrakenReaders.FrameLog(env, s, wire[0]), KrakenReaders.Emissions(env, next, wire[1..]));
  }

  lemma {:induction false} EmissionsAgree(
      states: Store, env: Environment, s: KrakenState, catalog: Catalog, done: seq<KrakenFrame>,
      wire: seq<KrakenFrame>, symbol: string)
    requires KrakenReaders.InRun(env, s, catalog, done, symbol)
    requires Agree(
      StoreAfter(states, s.pending), KrakenMarket(s.byNative[symbol]), AdapterAfter(env, s, symbol, done), env.convert)
    ensures EndsInAgreement(states, env, s, done, wire, symbol)
    decreases |wire|, |s.pending|
  {
    if s.pending != [] {
      var e, next := s.pending[0], s.(pending := s.pending[1..]);
      assert StoreAfter(states, s.pending) == StoreAfter(StoreAfter(states, [e]), next.pending) by {
        assert s.pending == [e] + next.pending;
        StoreConcat(states, [e], next.pending);
      }
      EmissionsAgree(StoreAfter(states, [e]), env, next, catalog, done, wire, symbol);
      PopAgrees(states, env, s, done, wire, symbol);
    } else if s.reconnect || wire == [] || FrameStep(env, s, wire[0]).None? {
      KrakenReaders.EmissionsEnd(env, s, wire);
      assert s.(pending := []) == s && done + wire[..0] == done;
    } else {
      var f, next := wire[0], FrameStep(env, s, wire[0]).value;
      var log := KrakenReaders.FrameLog(env, s, f);
      assert Agree(
        StoreAfter(StoreAfter(states, log), next.pending), KrakenMarket(s.byNative[symbol]),
        next.adapters[s.byNative[symbol]], env.convert) by {
        assert StoreAfter(states, []) == states;
        FrameAgrees(states, env, s, catalog, f, symbol);
        StoreConcat(states, log, next.pending);
      }
      KrakenReaders.StepInRun(env, s, catalog, done, f, symbol);
      EmissionsAgree(StoreAfter(states, log), env, next, catalog, done + [f], wire[1..], symbol);
      StepAgrees(states, env, s, done, wire, symbol);
    }
  }

  lemma {:induction false} OpenedAgrees(states: Store, env: Environment, universe: Universe, catalog: Catalog,
    symbol: string)
    requires OpenKraken(universe, catalog).Some? && symbol in OpenKraken(universe, catalog).value.byNative
    ensures var s := OpenKraken(universe, catalog).value;
      Agree(
        StoreAfter(states, s.pending), KrakenMarket(s.byNative[symbol]), AdapterAfter(env, s, symbol, []),
        env.convert)
  {
    ConfigureKeepsSilence(states, Unconfigured(universe), catalog, universe);
    var s := OpenKraken(universe, catalog).value;
    assert s.byNative[symbol] in universe by {
      ConfigureWithinProducts(Unconfigured(universe), catalog, universe, symbol);
    }
    if IsLive(StoreAfter(states, Unconfigured(universe).pending), KrakenMarket(s.byNative[symbol])) {
      assert [] + Statuses(Kraken, universe, {}, Connecting) == Statuses(Kraken, universe, {}, Connecting);
      StatusesSilence(states, [], Kraken, universe, {}, Connecting, KrakenMarket(s.byNative[symbol]));
    }
  }

  lemma {:induction false} ConfigureWithinProducts(
      s: KrakenState, catalog: Catalog, products: seq<Product>, symbol: string)
    requires Dispatches(s) && s.byNative == map[] && Configure(s, catalog, products).Some?
    requires symbol in Configure(s, catalog, products).value.byNative
    ensures Configure(s, catalog, products).value.byNative[symbol] in products
  {
    if products != [] {
      var front, p := products[..|products| - 1], products[|products| - 1];
      assert products == front + [p];
      if symbol in Configure(s, catalog, front).value.byNative {
        ConfigureWithinProducts(s, catalog, front, symbol);
      }
    }
  }

  /** Configuring only queues statuses, which make no market Live. */
  lemma {:induction false} ConfigureKeepsSilence(
      states: Store, s: KrakenState, catalog: Catalog, products: seq<Product>)
    requires Dispatches(s) && Configure(s, catalog, products).Some?
    ensures forall market :: IsLive(StoreAfter(states, Configure(s, catalog, products).value.pending), market) ==>
      IsLive(StoreAfter(states, s.pending), market)
  {
    if products != [] {
      var front, p := products[..|products| - 1], products[|products| - 1];
      ConfigureKeepsSilence(states, s, catalog, front);
      var mid := Configure(s, catalog, front).value;
      forall market | IsLive(StoreAfter(states, mid.pending + [StatusOf(p, Unsupported)]), market)
        ensures IsLive(StoreAfter(states, mid.pending), market)
      {
        LiveAfterEvent(states, mid.pending, StatusOf(p, Unsupported), market);
      }
    }
  }

  /**
   A Kraken connection read to its end, recovery not yet begun: the store has each
   dispatched market exactly as its adapter has it after all its inputs among the frames
   taken, Live or not, with the same book and time.
   */
  lemma {:induction false} KrakenMarketIsItsAdapter(
      states: Store, env: Environment, universe: Universe, wires: seq<Option<seq<KrakenFrame>>>,
      wire: seq<KrakenFrame>, log: seq<VenueSessionEvent>, symbol: string)
    requires OpenOnWire(universe, wire).Some? && symbol in OpenOnWire(universe, wire).value.session.byNative
    requires OfVenue(log, Kraken)
      == KrakenSession(env, universe, RunKraken(env, universe, wires), Some(wire)).sunk
    ensures var ready := OpenOnWire(universe, wire).value;
      var taken := ready.wire[..KrakenReaders.Survived(env, ready.session, ready.wire)];
      Agree(
        StoreAfter(states, log), KrakenMarket(ready.session.byNative[symbol]),
        AdapterAfter(env, ready.session, symbol, taken), env.convert)
  {
    var r, ready := RunKraken(env, universe, wires), OpenOnWire(universe, wire).value;
    var catalog := Discover(wire).value.0;
    var market := KrakenMarket(ready.session.byNative[symbol]);
    var emitted := KrakenReaders.Emissions(env, ready.session, ready.wire);
    var taken := ready.wire[..KrakenReaders.Survived(env, ready.session, ready.wire)];
    KrakenSinkGetsEverything(env, universe, r, Some(wire));
    StoreConcat(states, r.sunk, emitted);
    OpenedAgrees(StoreAfter(states, r.sunk), env, universe, catalog, symbol);
    ConfiguredOneSymbolEach(Unconfigured(universe), catalog, universe);
    assert [] + taken == taken;
    EmissionsAgree(StoreAfter(states, r.sunk), env, ready.session, catalog, [], ready.wire, symbol);
    OwnVenueOnly(states, log, r.sunk + emitted, market);
  }
}
