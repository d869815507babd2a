/**
 Where the book of a Live market comes from. Both venues' events reach the store
 interleaved in any way; a stored book is the replay of messages that one session of
 the market's own venue took without a break.
 */
module StoredBooks {
  import opened Wrappers
  import opened VenueEvents
  import opened OrderBooks
  import opened MarketStateStores
  import opened BookReconstructors
  import opened CoinbaseSessions
  import opened KrakenOutputs
  import opened KrakenAdapter
  import opened KrakenSessions
  import opened VenueRunners
  import opened VenueFeeds
  import KrakenReaders

  // ---------- The stored book is the latest event's ----------

  predicate IsBook(e: VenueSessionEvent, market: MarketKey) {
    e.Trusted? && !e.event.kind.Invalidated? && e.event.market == market
  }

  /** The market's latest event. */
  predicate LatestOf(log: seq<VenueSessionEvent>, market: MarketKey, i: nat) {
    i < |log| && log[i].Market() == market && forall j :: i < j < |log| ==> log[j].Market() != market
  }

  lemma {:induction false} NextStored(
      states: Store, log: seq<VenueSessionEvent>, e: VenueSessionEvent, market: MarketKey)
    requires IsLive(StoreAfter(states, log + [e]), market) && (e.Market() == market ==> Acceptable(e))
    ensures var before, after := StoreAfter(states, log), StoreAfter(states, log + [e]);
      if e.Market() == market then
        IsBook(e, market) && after[market].book == e.event.book && after[market].timestamp == e.event.timestamp
      else IsLive(before, market) && after[market] == before[market]
  {
    StoreSnoc(states, log, e);
    StoreAcceptsAcceptable(StoreAfter(states, log), e);
  }

  /** The store refuses none of the market's events. */
  predicate AcceptableFor(log: seq<VenueSessionEvent>, market: MarketKey) {
    forall j :: 0 <= j < |log| && log[j].Market() == market ==> Acceptable(log[j])
  }

  lemma {:induction false} SunkIsAcceptable(
      log: seq<VenueSessionEvent>, sunk: seq<VenueSessionEvent>, market: MarketKey)
    requires OfVenue(log, market.venue) <= sunk && AllAcceptable(sunk)
    ensures AcceptableFor(log, market)
  {
    forall j | 0 <= j < |log| && log[j].Market() == market ensures Acceptable(log[j]) {
      var i := SunkAt(log, sunk, market.venue, j);
    }
  }

  lemma {:induction false} LatestSnoc(log: seq<VenueSessionEvent>, e: VenueSessionEvent, market: MarketKey, i: nat)
    ensures e.Market() == market ==> LatestOf(log + [e], market, |log|)
    ensures e.Market() != market && LatestOf(log, market, i) ==> LatestOf(log + [e], market, i)
  {}

  /** A market that was not Live at first and is now has the book of its latest event. */
  lemma {:induction false} StoredIsLatest(states: Store, log: seq<VenueSessionEvent>, market: MarketKey)
      returns (i: nat)
    requires !IsLive(states, market) && IsLive(StoreAfter(states, log), market) && AcceptableFor(log, market)
    ensures LatestOf(log, market, i) && IsBook(log[i], market)
    ensures StoreAfter(states, log)[market].book == log[i].event.book
    ensures StoreAfter(states, log)[market].timestamp == log[i].event.timestamp
  {
    var front, e := log[..|log| - 1], log[|log| - 1];
    assert log == front + [e];
    NextStored(states, front, e, market);
    i := |front|;
    if e.Market() != market {
      i := StoredIsLatest(states, front, market);
    }
    LatestSnoc(front, e, market, i);
  }

  lemma {:induction false} LatestFront(log: seq<VenueSessionEvent>, e: VenueSessionEvent, market: MarketKey, i: nat)
    requires LatestOf(log + [e], market, i) && AcceptableFor(log + [e], market)
    ensures e.Market() == market ==> i == |log| && Acceptable(e)
    ensures e.Market() != market ==> i < |log| && LatestOf(log, market, i) && AcceptableFor(log, market)
  {
    var all := log + [e];
    assert all[|log|] == e;
    forall j | 0 <= j < |log| ensures all[j] == log[j] {}
    if e.Market() != market {
      forall j | i < j < |log| ensures log[j].Market() != market {
        assert all[j] == log[j];
      }
      forall j | 0 <= j < |log| && log[j].Market() == market ensures Acceptable(log[j]) {
        assert all[j] == log[j];
      }
    }
  }

  /**
   A market's latest event decides its stored status: a snapshot makes it Live with its
   book, an invalidation leaves it stale without one, a status is stored as it is.
   */
  lemma {:induction false} StoredStatusIsLatest(states: Store, log: seq<VenueSessionEvent>, market: MarketKey, i: nat)
    requires LatestOf(log, market, i) && AcceptableFor(log, market)
    ensures var e, after := log[i], StoreAfter(states, log);
      && (e.Status? ==> market in after && after[market].status == e.status && after[market].book == None)
      && (e.Trusted? && e.event.kind.Invalidated? ==>
            after.Keys >= {market} && after[market] == VenueBookState(market, Stale, None, e.event.timestamp))
      && (e.Trusted? && e.event.kind.Snapshot? ==>
            after.Keys >= {market} && after[market] == VenueBookState(market, Live, e.event.book, e.event.timestamp))
  {
    var front, e := log[..|log| - 1], log[|log| - 1];
    assert log == front + [e];
    LatestFront(front, e, market, i);
    StoreSnoc(states, front, e);
    if e.Market() == market {
      StoreAcceptsAcceptable(StoreAfter(states, front), e);
    } else {
      StoredStatusIsLatest(states, front, market, i);
    }
  }

  /** A book event among those of both venues was sunk by its own venue's runner. */
  lemma {:induction false} SunkAt(log: seq<VenueSessionEvent>, sunk: seq<VenueSessionEvent>, venue: Venue, i: nat)
      returns (j: nat)
    requires i < |log| && log[i].Market().venue == venue && OfVenue(log, venue) <= sunk
    ensures j < |sunk| && sunk[j] == log[i]
  {
    OfVenueKeeps(log, i);
    j :| 0 <= j < |OfVenue(log, venue)| && OfVenue(log, venue)[j] == log[i];
    assert sunk[j] == OfVenue(log, venue)[j];
  }

  // ---------- Coinbase ----------

  /** What a runner hands on, its session emitted, and about no product it had given up. */
  lemma {:induction false} CoinbaseHandsOn(
      universe: Universe, r: RunnerState, s: SessionState, wire: seq<Frame>, i: nat)
    requires Known(s) && |r.sunk| <= i < |DriveCoinbase(universe, r, s, wire).sunk|
    ensures var e := DriveCoinbase(universe, r, s, wire).sunk[i];
      && e in Emissions(s, wire)
      && (e.Trusted? ==> e.Market().product in universe && e.Market().product !in r.unsupported)
    decreases |wire|, |s.pending|
  {
    ReadShrinks(s, wire);
    var read := CoinbaseSessions.ReadEvent(s, wire);
    if read.event.Some? && AcceptCoinbase(universe, r, read.event.value).Some? {
      var next := AcceptCoinbase(universe, r, read.event.value).value;
      DriveCoinbaseNext(universe, r, s, wire);
      DriveCoinbaseExtends(universe, next, read.session, read.wire);
      if i >= |next.sunk| {
        CoinbaseHandsOn(universe, next, read.session, read.wire, i);
      }
    }
  }

  lemma {:induction false} ActiveIsDistinct(universe: Universe, unsupported: set<Product>)
    requires Distinct(universe)
    ensures Distinct(ActiveProducts(universe, unsupported))
    ensures forall p :: p in ActiveProducts(universe, unsupported) <==> p in universe && p !in unsupported
  {
    if universe != [] {
      var front, p := universe[..|universe| - 1], universe[|universe| - 1];
      ActiveIsDistinct(front, unsupported);
      assert universe == front + [p];
    }
  }

  lemma {:induction false} TrustedIn(log: seq<VenueSessionEvent>, e: VenueSessionEvent, product: Product)
    requires e in log && e.Trusted? && e.event.market == CoinbaseSessions.Market(product)
    ensures e.event in TrustedOf(log, product)
  {
    var front, last := log[..|log| - 1], log[|log| - 1];
    assert log == front + [last];
    if e in front {
      TrustedIn(front, e, product);
    }
  }

  lemma {:induction false} EventIsReplay(stream: seq<BookMessage>, e: TrustedBookEvent) returns (n: nat)
    requires e in EventsFor(stream)
    ensures 0 < n <= |stream| && e.book == Some(BookOf(stream[..n]))
  {
    n := |stream|;
    assert stream[..n] == stream;
    if e in EventsFor(stream[..n - 1]) {
      n := EventIsReplay(stream[..n - 1], e);
      assert stream[..|stream| - 1][..n] == stream[..n];
    }
  }

  /** The product's stream in the session of connection `k`. */
  function SessionStream(
      universe: Universe, wires: seq<Option<seq<Frame>>>, k: nat, product: Product): seq<BookMessage>
    requires k < |wires|
  {
    var active := ActiveProducts(universe, RunCoinbase(universe, wires[..k]).unsupported);
    match wires[k]
    case None => []
    case Some(wire) => Stream(wire[..Survived(Open(active), wire)], product)
  }

  lemma {:induction false} CoinbaseEmittedFrom(
      universe: Universe, wires: seq<Option<seq<Frame>>>, k: nat, e: VenueSessionEvent)
    requires k < |wires| && e in CoinbaseEmitted(universe, wires, k)
    ensures var r := RunCoinbase(universe, wires[..k]);
      && wires[k].Some? && e in Emissions(Open(ActiveProducts(universe, r.unsupported)), wires[k].value)
      && (e.Trusted? ==> e.Market().product in universe && e.Market().product !in r.unsupported)
  {
    var r := RunCoinbase(universe, wires[..k]);
    CoinbaseSessionExtends(universe, r, wires[k]);
    var all := CoinbaseSession(universe, r, wires[k]).sunk;
    var j :| 0 <= j < |all[|r.sunk|..]| && all[|r.sunk|..][j] == e;
    assert all[|r.sunk| + j] == e;
    CoinbaseHandsOn(universe, r, Open(ActiveProducts(universe, r.unsupported)), wires[k].value, |r.sunk| + j);
  }

  lemma {:induction false} CoinbaseEventIsReplay(
      universe: Universe, wires: seq<Option<seq<Frame>>>, k: nat, e: VenueSessionEvent, product: Product)
      returns (n: nat)
    requires Distinct(universe) && k < |wires| && e in CoinbaseEmitted(universe, wires, k)
    requires IsBook(e, MarketKey(Coinbase, product))
    ensures var stream := SessionStream(universe, wires, k, product);
      0 < n <= |stream| && e.event.book == Some(BookOf(stream[..n]))
  {
    var unsupported := RunCoinbase(universe, wires[..k]).unsupported;
    var active := ActiveProducts(universe, unsupported);
    CoinbaseEmittedFrom(universe, wires, k, e);
    ActiveIsDistinct(universe, unsupported);
    TrustedIn(Emissions(Open(active), wires[k].value), e, product);
    ReadersSeeTheStream(active, wires[k].value, product);
    n := EventIsReplay(SessionStream(universe, wires, k, product), e.event);
  }

  /** The event was handed on by session `k`, with the book of the first `n` messages of its stream. */
  predicate IsStreamReplay(
      universe: Universe, wires: seq<Option<seq<Frame>>>, e: VenueSessionEvent, product: Product, k: nat, n: nat,
      book: Option<Book>)
  {
    && k < |wires| && e in CoinbaseEmitted(universe, wires, k)
    && 0 < n <= |SessionStream(universe, wires, k, product)|
    && book == Some(BookOf(SessionStream(universe, wires, k, product)[..n]))
  }

  /**
   However the venues interleave and wherever the log is cut: the stored book of a Live
   Coinbase market is the replay of a beginning of the product's stream in the session
   that its latest event came from.
   */
  lemma {:induction false} CoinbaseBookIsReplay(
      states: Store, universe: Universe, wires: seq<Option<seq<Frame>>>, log: seq<VenueSessionEvent>,
      product: Product)
    requires Distinct(universe) && OfVenue(log, Coinbase) <= RunCoinbase(universe, wires).sunk
    requires !IsLive(states, MarketKey(Coinbase, product))
    requires IsLive(StoreAfter(states, log), MarketKey(Coinbase, product))
    ensures var market := MarketKey(Coinbase, product);
      exists i: nat, k: nat, n: nat :: LatestOf(log, market, i)
        && IsStreamReplay(universe, wires, log[i], product, k, n, StoreAfter(states, log)[market].book)
  {
    var market := MarketKey(Coinbase, product);
    CoinbaseSunkAcceptable(universe, wires);
    SunkIsAcceptable(log, RunCoinbase(universe, wires).sunk, market);
    var i := StoredIsLatest(states, log, market);
    var j := SunkAt(log, RunCoinbase(universe, wires).sunk, Coinbase, i);
    assert wires[..0] == [];
    var k := CoinbaseEmitter(universe, wires, 0, j);
    var n := CoinbaseEventIsReplay(universe, wires, k, log[i], product);
    assert IsStreamReplay(universe, wires, log[i], product, k, n, StoreAfter(states, log)[market].book);
  }

  // ---------- Kraken ----------

  lemma {:induction false} KrakenHandsOn(
      env: Environment, universe: Universe, r: RunnerState, s: KrakenState, wire: seq<KrakenFrame>, i: nat)
    requires Dispatches(s) && |r.sunk| <= i < |DriveKraken(env, universe, r, s, wire).sunk|
    ensures DriveKraken(env, universe, r, s, wire).sunk[i] in KrakenReaders.Emissions(env, s, wire)
    decreases |wire|, |s.pending|
  {
    var read := ReadKraken(env, s, wire);
    if read.event.Some? && AcceptKraken(universe, r, read.event.value).Some? {
      var next := AcceptKraken(universe, r, read.event.value).value;
      DriveKrakenNext(env, universe, r, s, wire);
      DriveKrakenExtends(env, universe, next, read.session, read.wire);
      if i >= |next.sunk| {
        KrakenHandsOn(env, universe, next, read.session, read.wire, i);
      }
    }
  }

  /** The inputs of the product's adapter in the session of connection `k`. */
  function SessionInputs(
      env: Environment, universe: Universe, wires: seq<Option<seq<KrakenFrame>>>, k: nat, symbol: string): seq<Input>
    requires k < |wires|
  {
    if wires[k].None? then []
    else match OpenOnWire(universe, wires[k].value)
      case None => []
      case Some(ready) =>
        InputsFor(ready.wire[..KrakenReaders.Survived(env, ready.session, ready.wire)], symbol)
  }

  lemma {:induction false} EventIsSides(cfg: AdapterConfig, s: AdapterState, input: Input, e: TrustedBookEvent)
    requires e in KrakenReaders.EventOf(cfg, s, input) && !e.kind.Invalidated?
    ensures Step(cfg, s, input).status == Live && e.book == NumericBook(Step(cfg, s, input).sides, cfg.convert)
  {}

  lemma {:induction false} EventIsJournalReplay(cfg: AdapterConfig, inputs: seq<Input>, e: TrustedBookEvent)
      returns (n: nat)
    requires e in KrakenReaders.EventsOf(cfg, inputs) && !e.kind.Invalidated?
    ensures n <= |inputs| && Journal(cfg, inputs[..n]) != []
    ensures e.book == NumericBook(KrakenBook.Replay(Journal(cfg, inputs[..n]), cfg.depth), cfg.convert)
  {
    n := |inputs|;
    assert inputs[..n] == inputs;
    var front := inputs[..n - 1];
    if e in KrakenReaders.EventsOf(cfg, front) {
      n := EventIsJournalReplay(cfg, front, e);
      assert front[..n] == inputs[..n];
    } else {
      EventIsSides(cfg, Run(cfg, front), inputs[n - 1], e);
      LiveBookIsReplay(cfg, inputs);
    }
  }

  lemma {:induction false} FrameSpeaksFor(env: Environment, s: KrakenState, f: KrakenFrame, e: VenueSessionEvent)
    requires Dispatches(s) && e in KrakenReaders.FrameLog(env, s, f)
    ensures f.BookFrame? && f.symbol in s.byNative && e.Market() == KrakenMarket(s.byNative[f.symbol])
  {}

  lemma {:induction false} StepKeepsNatives(env: Environment, s: KrakenState, f: KrakenFrame)
    requires Dispatches(s) && FrameStep(env, s, f).Some?
    ensures FrameStep(env, s, f).value.byNative == s.byNative
  {}

  /** A trusted event is about a product with a native symbol. */
  lemma {:induction false} SpokenFor(
      env: Environment, s: KrakenState, wire: seq<KrakenFrame>, e: VenueSessionEvent) returns (symbol: string)
    requires Dispatches(s) && OnlyStatuses(s.pending) && e in KrakenReaders.Emissions(env, s, wire) && e.Trusted?
    ensures symbol in s.byNative && e.event.market == KrakenMarket(s.byNative[symbol])
    decreases |wire|, |s.pending|
  {
    if s.pending != [] {
      KrakenReaders.EmissionsPop(env, s, wire);
      symbol := SpokenFor(env, s.(pending := s.pending[1..]), wire, e);
    } else {
      if s.reconnect || wire == [] || FrameStep(env, s, wire[0]).None? {
        KrakenReaders.EmissionsEnd(env, s, wire);
      }
      var f := wire[0];
      KrakenReaders.EmissionsStep(env, s, wire);
      if e in KrakenReaders.FrameLog(env, s, f) {
        FrameSpeaksFor(env, s, f, e);
        symbol := f.symbol;
      } else {
        KrakenReaders.StepQueuesStatuses(env, s, f);
        symbol := SpokenFor(env, FrameStep(env, s, f).value, wire[1..], e);
        StepKeepsNatives(env, s, f);
      }
    }
  }

  lemma {:induction false} KrakenTrustedIn(log: seq<VenueSessionEvent>, e: VenueSessionEvent)
    requires e in log && e.Trusted?
    ensures e.event in KrakenReaders.TrustedOf(log, e.event.market)
  {
    assert log == [log[0]] + log[1..];
    if e != log[0] {
      KrakenTrustedIn(log[1..], e);
    }
  }

  lemma {:induction false} KrakenEmittedFrom(
      env: Environment, universe: Universe, wires: seq<Option<seq<KrakenFrame>>>, k: nat, e: VenueSessionEvent)
    requires k < |wires| && e in KrakenEmitted(env, universe, wires, k)
    ensures wires[k].Some? && OpenOnWire(universe, wires[k].value).Some?
    ensures var ready := OpenOnWire(universe, wires[k].value).value;
      e in KrakenReaders.Emissions(env, ready.session, ready.wire)
  {
    var r := RunKraken(env, universe, wires[..k]);
    KrakenSessionExtends(env, universe, r, wires[k]);
    var all := KrakenSession(env, universe, r, wires[k]).sunk;
    var j :| 0 <= j < |all[|r.sunk|..]| && all[|r.sunk|..][j] == e;
    assert all[|r.sunk| + j] == e;
    var ready := OpenOnWire(universe, wires[k].value).value;
    KrakenHandsOn(env, universe, r, ready.session, ready.wire, |r.sunk| + j);
  }

  /** The connection's catalog gave the product this native symbol. */
  predicate IsNative(universe: Universe, wire: Option<seq<KrakenFrame>>, symbol: string, product: Product) {
    && wire.Some? && OpenOnWire(universe, wire.value).Some?
    && var native := OpenOnWire(universe, wire.value).value.session.byNative;
       symbol in native && native[symbol] == product
  }

  lemma {:induction false} KrakenEventIsReplay(
      env: Environment, universe: Universe, wires: seq<Option<seq<KrakenFrame>>>, k: nat, e: VenueSessionEvent,
      product: Product) returns (symbol: string, n: nat)
    requires k < |wires| && e in KrakenEmitted(env, universe, wires, k) && IsBook(e, KrakenMarket(product))
    ensures IsJournalReplay(env, universe, wires, e, product, k, symbol, n, e.event.book)
  {
    KrakenEmittedFrom(env, universe, wires, k, e);
    var ready := OpenOnWire(universe, wires[k].value).value;
    var catalog := Discover(wires[k].value).value.0;
    KrakenReaders.OpenedQueuesStatuses(universe, catalog);
    symbol := SpokenFor(env, ready.session, ready.wire, e);
    KrakenTrustedIn(KrakenReaders.Emissions(env, ready.session, ready.wire), e);
    KrakenReaders.ReadersSeeTheRun(env, universe, catalog, ready.wire, symbol);
    n := EventIsJournalReplay(
      AdapterConfigFor(env, product, symbol), SessionInputs(env, universe, wires, k, symbol), e.event);
  }

  /**
   The event was handed on by session `k`, with the numeric book of the batches that the
   product's adapter had accepted since a snapshot when it had taken `n` inputs.
   */
  predicate IsJournalReplay(
      env: Environment, universe: Universe, wires: seq<Option<seq<KrakenFrame>>>, e: VenueSessionEvent,
      product: Product, k: nat, symbol: string, n: nat, book: Option<Book>)
  {
    && k < |wires| && e in KrakenEmitted(env, universe, wires, k)
    && IsNative(universe, wires[k], symbol, product)
    && n <= |SessionInputs(env, universe, wires, k, symbol)|
    && var batches :=
         Journal(AdapterConfigFor(env, product, symbol), SessionInputs(env, universe, wires, k, symbol)[..n]);
       batches != [] && book == NumericBook(KrakenBook.Replay(batches, env.depth), env.convert)
  }

  /** The same for Kraken, with the batches its adapter accepted and cross-checked since a snapshot. */
  lemma {:induction false} KrakenBookIsReplay(
      states: Store, env: Environment, universe: Universe, wires: seq<Option<seq<KrakenFrame>>>,
      log: seq<VenueSessionEvent>, product: Product)
    requires OfVenue(log, Kraken) <= RunKraken(env, universe, wires).sunk
    requires !IsLive(states, KrakenMarket(product)) && IsLive(StoreAfter(states, log), KrakenMarket(product))
    ensures var market := KrakenMarket(product);
      exists i: nat, k: nat, symbol: string, n: nat :: LatestOf(log, market, i)
        && IsJournalReplay(
             env, universe, wires, log[i], product, k, symbol, n, StoreAfter(states, log)[market].book)
  {
    var market := KrakenMarket(product);
    KrakenSunkAcceptable(env, universe, wires);
    SunkIsAcceptable(log, RunKraken(env, universe, wires).sunk, market);
    var i := StoredIsLatest(states, log, market);
    var j := SunkAt(log, RunKraken(env, universe, wires).sunk, Kraken, i);
    assert wires[..0] == [];
    var k := KrakenEmitter(env, universe, wires, 0, j);
    var symbol, n := KrakenEventIsReplay(env, universe, wires, k, log[i], product);
    assert IsJournalReplay(
      env, universe, wires, log[i], product, k, symbol, n, StoreAfter(states, log)[market].book);
  }
}
