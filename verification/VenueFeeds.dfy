/**
 What stands behind the runners' sinks: the store and the scanner's publisher. Both
 venues' events arrive interleaved in any way; `OfVenue` takes them apart again.
 */
module VenueFeeds {
  import opened Wrappers
  import opened VenueEvents
  import opened MarketStateStores
  import opened SequenceTrackers
  import opened BookReconstructors
  import opened CoinbaseSessions
  import opened KrakenSessions
  import opened VenueRunners
  import opened Scanners

  // ---------- Nothing a runner hands on is refused ----------

  /** A trusted book carries its book, and no status claims a market Live. */
  predicate Acceptable(e: VenueSessionEvent) {
    if e.Trusted? then e.event.kind.Invalidated? || e.event.book.Some? else e.status != Live
  }

  predicate AllAcceptable(log: seq<VenueSessionEvent>) {
    forall i :: 0 <= i < |log| ==> Acceptable(log[i])
  }

  lemma {:induction false} StatusesAcceptable(
      log: seq<VenueSessionEvent>, venue: Venue, products: seq<Product>, excluded: set<Product>,
      status: VenueMarketStatus)
    requires AllAcceptable(log) && status != Live
    ensures AllAcceptable(log + Statuses(venue, products, excluded, status))
  {
    if products == [] {
      assert log + [] == log;
    } else {
      var front, p := products[..|products| - 1], products[|products| - 1];
      StatusesAcceptable(log, venue, front, excluded, status);
      var e := Status(MarketKey(venue, p), status);
      assert log + (Statuses(venue, front, excluded, status) + [e])
        == log + Statuses(venue, front, excluded, status) + [e];
    }
  }

  lemma {:induction false} MessagesAcceptable(s: SessionState, ms: seq<BookMessage>, status: SequenceStatus)
    requires Known(s) && AllAcceptable(s.pending) && ProcessMessages(s, ms, status).Some?
    ensures AllAcceptable(ProcessMessages(s, ms, status).value.pending)
  {
    if ms != [] {
      MessagesAcceptable(s, ms[..|ms| - 1], status);
    }
  }

  lemma {:induction false} InvalidateAcceptable(s: SessionState, products: seq<Product>)
    requires Known(s) && (forall p :: p in products ==> p in s.books) && AllAcceptable(s.pending)
    ensures AllAcceptable(Invalidate(s, products).pending)
  {
    if products != [] {
      InvalidateAcceptable(s, products[..|products| - 1]);
    }
  }

  lemma {:induction false} FrameAcceptable(s: SessionState, f: Frame)
    requires Known(s) && AllAcceptable(s.pending) && ProcessFrame(s, f).Some?
    ensures AllAcceptable(ProcessFrame(s, f).value.pending)
  {
    if f.Data? {
      var status := Classify(s.last, f.number).status;
      var observed := s.(last := Advance(s.last, f.number));
      if status == Gap {
        InvalidateAcceptable(observed, s.universe);
      } else {
        MessagesAcceptable(observed, f.messages, status);
      }
    }
  }

  lemma {:induction false} ReadAcceptable(s: SessionState, wire: seq<Frame>)
    requires Known(s) && AllAcceptable(s.pending)
    ensures var r := CoinbaseSessions.ReadEvent(s, wire);
      AllAcceptable(r.session.pending) && (r.event.Some? ==> Acceptable(r.event.value))
    decreases |wire|
  {
    if s.pending == [] && !s.reconnect && wire != [] && ProcessFrame(s, wire[0]).Some? {
      FrameAcceptable(s, wire[0]);
      ReadAcceptable(ProcessFrame(s, wire[0]).value, wire[1..]);
    }
  }

  lemma {:induction false} DriveAcceptable(universe: Universe, r: RunnerState, s: SessionState, wire: seq<Frame>)
    requires Known(s) && AllAcceptable(s.pending) && AllAcceptable(r.sunk)
    ensures AllAcceptable(DriveCoinbase(universe, r, s, wire).sunk)
    decreases |wire|, |s.pending|
  {
    ReadShrinks(s, wire);
    ReadAcceptable(s, wire);
    var read := CoinbaseSessions.ReadEvent(s, wire);
    if read.event.Some? && AcceptCoinbase(universe, r, read.event.value).Some? {
      DriveAcceptable(universe, AcceptCoinbase(universe, r, read.event.value).value, read.session, read.wire);
    }
  }

  lemma {:induction false} RecoverAcceptable(venue: Venue, universe: Universe, r: RunnerState)
    requires AllAcceptable(r.sunk)
    ensures AllAcceptable(Recover(venue, universe, r).sunk)
  {
    StatusesAcceptable(r.sunk, venue, universe, r.unsupported, Disconnected);
    StatusesAcceptable(r.sunk + Statuses(venue, universe, r.unsupported, Disconnected), venue, universe,
      r.unsupported, Reconnecting);
  }

  lemma {:induction false} CoinbaseSunkAcceptable(universe: Universe, wires: seq<Option<seq<Frame>>>)
    ensures AllAcceptable(RunCoinbase(universe, wires).sunk)
  {
    if wires != [] {
      var r := RunCoinbase(universe, wires[..|wires| - 1]);
      CoinbaseSunkAcceptable(universe, wires[..|wires| - 1]);
      var active := ActiveProducts(universe, r.unsupported);
      if active != [] && wires[|wires| - 1].Some? {
        StatusesAcceptable([], Coinbase, active, {}, Connecting);
        assert [] + Statuses(Coinbase, active, {}, Connecting) == Statuses(Coinbase, active, {}, Connecting);
        StatusesAcceptable(Statuses(Coinbase, active, {}, Connecting), Coinbase, active, {}, WaitingForSnapshot);
        DriveAcceptable(universe, r, Open(active), wires[|wires| - 1].value);
      }
      RecoverAcceptable(Coinbase, universe, CoinbaseSession(universe, r, wires[|wires| - 1]));
    }
  }

  lemma {:induction false} ConfigureAcceptable(s: KrakenState, catalog: Catalog, products: seq<Product>)
    requires Dispatches(s) && AllAcceptable(s.pending) && Configure(s, catalog, products).Some?
    ensures AllAcceptable(Configure(s, catalog, products).value.pending)
  {
    if products != [] {
      ConfigureAcceptable(s, catalog, products[..|products| - 1]);
    }
  }

  lemma {:induction false} ReadKrakenAcceptable(env: Environment, s: KrakenState, wire: seq<KrakenFrame>)
    requires Dispatches(s) && AllAcceptable(s.pending)
    ensures var r := ReadKraken(env, s, wire);
      AllAcceptable(r.session.pending) && (r.event.Some? ==> Acceptable(r.event.value))
    decreases |wire|
  {
    if s.pending == [] && !s.reconnect && wire != [] && FrameStep(env, s, wire[0]).Some? {
      ReadKrakenAcceptable(env, FrameStep(env, s, wire[0]).value, wire[1..]);
    }
  }

  lemma {:induction false} DriveKrakenAcceptable(
      env: Environment, universe: Universe, r: RunnerState, s: KrakenState, wire: seq<KrakenFrame>)
    requires Dispatches(s) && AllAcceptable(s.pending) && AllAcceptable(r.sunk)
    ensures AllAcceptable(DriveKraken(env, universe, r, s, wire).sunk)
    decreases |wire|, |s.pending|
  {
    ReadKrakenAcceptable(env, s, wire);
    var read := ReadKraken(env, s, wire);
    if read.event.Some? && AcceptKraken(universe, r, read.event.value).Some? {
      DriveKrakenAcceptable(env, universe, AcceptKraken(universe, r, read.event.value).value, read.session, read.wire);
    }
  }

  lemma {:induction false} KrakenSunkAcceptable(
      env: Environment, universe: Universe, wires: seq<Option<seq<KrakenFrame>>>)
    ensures AllAcceptable(RunKraken(env, universe, wires).sunk)
  {
    if wires != [] {
      var r, wire := RunKraken(env, universe, wires[..|wires| - 1]), wires[|wires| - 1];
      KrakenSunkAcceptable(env, universe, wires[..|wires| - 1]);
      if wire.Some? && OpenOnWire(universe, wire.value).Some? {
        var ready := OpenOnWire(universe, wire.value).value;
        StatusesAcceptable([], Kraken, universe, {}, Connecting);
        assert [] + Statuses(Kraken, universe, {}, Connecting) == Statuses(Kraken, universe, {}, Connecting);
        ConfigureAcceptable(Unconfigured(universe), Discover(wire.value).value.0, universe);
        DriveKrakenAcceptable(env, universe, r, ready.session, ready.wire);
      }
      RecoverAcceptable(Kraken, universe, KrakenSession(env, universe, r, wire));
    }
  }

  // ---------- Each runner keeps to its venue and universe ----------

  predicate Belongs(venue: Venue, universe: Universe, log: seq<VenueSessionEvent>) {
    forall i :: 0 <= i < |log| ==> ValidMarket(venue, universe, log[i])
  }

  lemma {:induction false} StatusesBelong(
      venue: Venue, universe: Universe, products: seq<Product>, excluded: set<Product>, status: VenueMarketStatus)
    requires forall p :: p in products ==> p in universe
    ensures Belongs(venue, universe, Statuses(venue, products, excluded, status))
  {
    if products != [] {
      StatusesBelong(venue, universe, products[..|products| - 1], excluded, status);
    }
  }

  lemma {:induction false} RecoverBelongs(venue: Venue, universe: Universe, r: RunnerState)
    requires Belongs(venue, universe, r.sunk)
    ensures Belongs(venue, universe, Recover(venue, universe, r).sunk)
  {
    StatusesBelong(venue, universe, universe, r.unsupported, Disconnected);
    StatusesBelong(venue, universe, universe, r.unsupported, Reconnecting);
  }

  lemma {:induction false} DriveCoinbaseBelongs(universe: Universe, r: RunnerState, s: SessionState, wire: seq<Frame>)
    requires Known(s) && Belongs(Coinbase, universe, r.sunk)
    ensures Belongs(Coinbase, universe, DriveCoinbase(universe, r, s, wire).sunk)
    decreases |wire|, |s.pending|
  {
    ReadShrinks(s, wire);
    var read := CoinbaseSessions.ReadEvent(s, wire);
    if read.event.Some? && AcceptCoinbase(universe, r, read.event.value).Some? {
      DriveCoinbaseBelongs(universe, AcceptCoinbase(universe, r, read.event.value).value, read.session, read.wire);
    }
  }

  lemma {:induction false} DriveKrakenBelongs(
      env: Environment, universe: Universe, r: RunnerState, s: KrakenState, wire: seq<KrakenFrame>)
    requires Dispatches(s) && Belongs(Kraken, universe, r.sunk)
    ensures Belongs(Kraken, universe, DriveKraken(env, universe, r, s, wire).sunk)
    decreases |wire|, |s.pending|
  {
    var read := ReadKraken(env, s, wire);
    if read.event.Some? && AcceptKraken(universe, r, read.event.value).Some? {
      DriveKrakenBelongs(env, universe, AcceptKraken(universe, r, read.event.value).value, read.session, read.wire);
    }
  }

  lemma {:induction false} CoinbaseSunkBelongs(universe: Universe, wires: seq<Option<seq<Frame>>>)
    ensures Belongs(Coinbase, universe, RunCoinbase(universe, wires).sunk)
  {
    if wires != [] {
      var r, wire := RunCoinbase(universe, wires[..|wires| - 1]), wires[|wires| - 1];
      CoinbaseSunkBelongs(universe, wires[..|wires| - 1]);
      var active := ActiveProducts(universe, r.unsupported);
      if active != [] && wire.Some? {
        DriveCoinbaseBelongs(universe, r, Open(active), wire.value);
      }
      RecoverBelongs(Coinbase, universe, CoinbaseSession(universe, r, wire));
    }
  }

  lemma {:induction false} KrakenSunkBelongs(
      env: Environment, universe: Universe, wires: seq<Option<seq<KrakenFrame>>>)
    ensures Belongs(Kraken, universe, RunKraken(env, universe, wires).sunk)
  {
    if wires != [] {
      var r, wire := RunKraken(env, universe, wires[..|wires| - 1]), wires[|wires| - 1];
      KrakenSunkBelongs(env, universe, wires[..|wires| - 1]);
      if wire.Some? && OpenOnWire(universe, wire.value).Some? {
        var ready := OpenOnWire(universe, wire.value).value;
        DriveKrakenBelongs(env, universe, r, ready.session, ready.wire);
      }
      RecoverBelongs(Kraken, universe, KrakenSession(env, universe, r, wire));
    }
  }

  // ---------- The store and the scanner accept everything ----------

  lemma {:induction false} StoreAcceptsAcceptable(states: Store, e: VenueSessionEvent)
    ensures Received(states, e).Success? <==> Acceptable(e)
  {}

  /** Whatever the store held before, it refuses no event of the Coinbase runner. */
  lemma {:induction false} CoinbaseSinkNeverRefuses(
      states: Store, universe: Universe, wires: seq<Option<seq<Frame>>>, i: nat)
    requires i < |RunCoinbase(universe, wires).sunk|
    ensures var sunk := RunCoinbase(universe, wires).sunk;
      Received(StoreAfter(states, sunk[..i]), sunk[i]).Success?
  {
    var sunk := RunCoinbase(universe, wires).sunk;
    CoinbaseSunkAcceptable(universe, wires);
    StoreAcceptsAcceptable(StoreAfter(states, sunk[..i]), sunk[i]);
  }

  /** Nor any of the Kraken runner. */
  lemma {:induction false} KrakenSinkNeverRefuses(
      states: Store, env: Environment, universe: Universe, wires: seq<Option<seq<KrakenFrame>>>, i: nat)
    requires i < |RunKraken(env, universe, wires).sunk|
    ensures var sunk := RunKraken(env, universe, wires).sunk;
      Received(StoreAfter(states, sunk[..i]), sunk[i]).Success?
  {
    var sunk := RunKraken(env, universe, wires).sunk;
    KrakenSunkAcceptable(env, universe, wires);
    StoreAcceptsAcceptable(StoreAfter(states, sunk[..i]), sunk[i]);
  }

  /** One venue's events among those of both. */
  function OfVenue(log: seq<VenueSessionEvent>, venue: Venue): seq<VenueSessionEvent> {
    if log == [] then []
    else
      var before, e := OfVenue(log[..|log| - 1], venue), log[|log| - 1];
      if e.Market().venue == venue then before + [e] else before
  }

  /** The log as far as it has come: each venue's events are the first ones of its own runner's sink. */
  predicate Interleaves(
      log: seq<VenueSessionEvent>, coinbase: seq<VenueSessionEvent>, kraken: seq<VenueSessionEvent>)
  {
    OfVenue(log, Coinbase) <= coinbase && OfVenue(log, Kraken) <= kraken
  }

  lemma {:induction false} OfVenueSnoc(log: seq<VenueSessionEvent>, e: VenueSessionEvent, venue: Venue)
    ensures OfVenue(log + [e], venue)
      == if e.Market().venue == venue then OfVenue(log, venue) + [e] else OfVenue(log, venue)
  {
    assert (log + [e])[..|log|] == log;
  }

  lemma {:induction false} OfVenueConcat(a: seq<VenueSessionEvent>, b: seq<VenueSessionEvent>, venue: Venue)
    ensures OfVenue(a + b, venue) == OfVenue(a, venue) + OfVenue(b, venue)
  {
    if b == [] {
      assert a + b == a;
    } else {
      var front, e := b[..|b| - 1], b[|b| - 1];
      OfVenueConcat(a, front, venue);
      OfVenueSnoc(a + front, e, venue);
      assert a + b == a + front + [e];
    }
  }

  lemma {:induction false} OfVenueKeeps(log: seq<VenueSessionEvent>, i: nat)
    requires i < |log|
    ensures log[i] in OfVenue(log, log[i].Market().venue)
  {
    if i < |log| - 1 {
      OfVenueKeeps(log[..|log| - 1], i);
    }
  }

  /** The publisher fed with a whole log; `errors` are the exceptions it threw. */
  datatype Fed = Fed(states: Store, cache: Cache, errors: seq<ScannerError>)

  function Feed(universe: Universe, states: Store, cache: Cache, log: seq<VenueSessionEvent>): Fed {
    if log == [] then Fed(states, cache, [])
    else
      var before := Feed(universe, states, cache, log[..|log| - 1]);
      var o := ApplyEvent(universe, before.states, before.cache, log[|log| - 1]);
      Fed(o.states, o.cache, before.errors + match o.error { case None => [] case Some(error) => [error] })
  }

  /** Every event is about the universe and one the store accepts. */
  predicate AllPublishable(universe: Universe, log: seq<VenueSessionEvent>) {
    forall i :: 0 <= i < |log| ==> log[i].Market().product in universe && Acceptable(log[i])
  }

  lemma {:induction false} FeedNeverFails(
      universe: Universe, states: Store, cache: Cache, log: seq<VenueSessionEvent>)
    requires Agrees(universe, states, cache) && AllPublishable(universe, log)
    ensures var fed := Feed(universe, states, cache, log);
      fed.errors == [] && Agrees(universe, fed.states, fed.cache)
  {
    if log != [] {
      var front, e := log[..|log| - 1], log[|log| - 1];
      FeedNeverFails(universe, states, cache, front);
      var before := Feed(universe, states, cache, front);
      StoreAcceptsAcceptable(before.states, e);
      ApplyKeepsAgreement(universe, before.states, before.cache, e);
    }
  }

  lemma {:induction false} InterleavedPublishable(
      env: Environment, universe: Universe, log: seq<VenueSessionEvent>,
      coinbaseWires: seq<Option<seq<Frame>>>, krakenWires: seq<Option<seq<KrakenFrame>>>)
    requires Interleaves(log, RunCoinbase(universe, coinbaseWires).sunk, RunKraken(env, universe, krakenWires).sunk)
    ensures AllPublishable(universe, log)
  {
    var coinbase, kraken := RunCoinbase(universe, coinbaseWires).sunk, RunKraken(env, universe, krakenWires).sunk;
    CoinbaseSunkAcceptable(universe, coinbaseWires);
    CoinbaseSunkBelongs(universe, coinbaseWires);
    KrakenSunkAcceptable(env, universe, krakenWires);
    KrakenSunkBelongs(env, universe, krakenWires);
    forall i | 0 <= i < |log| ensures log[i].Market().product in universe && Acceptable(log[i]) {
      OfVenueKeeps(log, i);
      assert log[i] in coinbase || log[i] in kraken;
    }
  }

  /**
   However the two runners' events interleave, and whatever their connections deliver,
   the publisher never throws into a runner, and the scanner's cache stays the quotes
   recomputed from the store.
   */
  lemma {:induction false} PublisherNeverThrows(
      env: Environment, universe: Universe, states: Store, cache: Cache, log: seq<VenueSessionEvent>,
      coinbaseWires: seq<Option<seq<Frame>>>, krakenWires: seq<Option<seq<KrakenFrame>>>)
    requires Agrees(universe, states, cache)
    requires Interleaves(log, RunCoinbase(universe, coinbaseWires).sunk, RunKraken(env, universe, krakenWires).sunk)
    ensures var fed := Feed(universe, states, cache, log);
      fed.errors == [] && Agrees(universe, fed.states, fed.cache)
  {
    InterleavedPublishable(env, universe, log, coinbaseWires, krakenWires);
    FeedNeverFails(universe, states, cache, log);
  }

  // ---------- Both venues ----------

  /** After a sleep a market becomes Live again only through a snapshot event of its own. */
  lemma {:induction false} LiveAgainNeedsSnapshot(
      states: Store, before: seq<VenueSessionEvent>, since: seq<VenueSessionEvent>, market: MarketKey)
    requires !IsLive(StoreAfter(states, before), market) && IsLive(StoreAfter(states, before + since), market)
    ensures exists i ::
      0 <= i < |since| && since[i].Trusted? && since[i].event.kind.Snapshot? && since[i].Market() == market
  {
    assert before + [] == before;
    if since != [] {
      var front, e := since[..|since| - 1], since[|since| - 1];
      assert before + since == (before + front) + [e];
      LiveAfterEvent(states, before + front, e, market);
      if IsLive(StoreAfter(states, before + front), market) {
        LiveAgainNeedsSnapshot(states, before, front, market);
        var i :| 0 <= i < |front| && front[i].Trusted? && front[i].event.kind.Snapshot? && front[i].Market() == market;
        assert since[i] == front[i];
      }
    }
  }

  /** One market's events among those of both venues. */
  function About(log: seq<VenueSessionEvent>, market: MarketKey): seq<VenueSessionEvent> {
    if log == [] then []
    else
      var before, e := About(log[..|log| - 1], market), log[|log| - 1];
      if e.Market() == market then before + [e] else before
  }

  /** Interleaving with other markets, and with the other venue's runner, does not matter to a market's state. */
  lemma {:induction false} OtherEventsDoNotMatter(states: Store, log: seq<VenueSessionEvent>, market: MarketKey)
    ensures var all, own := StoreAfter(states, log), StoreAfter(states, About(log, market));
      (market in all <==> market in own) && (market in all ==> all[market] == own[market])
  {
    if log != [] {
      var front, e := log[..|log| - 1], log[|log| - 1];
      OtherEventsDoNotMatter(states, front, market);
      assert log == front + [e];
      StoreSnoc(states, front, e);
      if e.Market() == market {
        StoreSnoc(states, About(front, market), e);
      }
    }
  }

  lemma {:induction false} AboutOfVenue(log: seq<VenueSessionEvent>, market: MarketKey)
    ensures About(OfVenue(log, market.venue), market) == About(log, market)
  {
    if log != [] {
      AboutOfVenue(log[..|log| - 1], market);
      var before, e := OfVenue(log[..|log| - 1], market.venue), log[|log| - 1];
      assert (before + [e])[..|before|] == before;
    }
  }

  /** Whether a market is Live depends on its own venue's events alone. */
  lemma {:induction false} LiveByOwnVenue(states: Store, log: seq<VenueSessionEvent>, market: MarketKey)
    ensures IsLive(StoreAfter(states, log), market)
      <==> IsLive(StoreAfter(states, OfVenue(log, market.venue)), market)
  {
    OtherEventsDoNotMatter(states, log, market);
    OtherEventsDoNotMatter(states, OfVenue(log, market.venue), market);
    AboutOfVenue(log, market);
  }

  predicate IsSnapshotFor(e: VenueSessionEvent, market: MarketKey) {
    e.Trusted? && e.event.kind.Snapshot? && e.Market() == market
  }

  lemma {:induction false} PrefixAt<T>(own: seq<T>, more: seq<T>, all: seq<T>, j: nat)
    requires own + more <= all && j < |more|
    ensures |own| + j < |all| && all[|own| + j] == more[j]
  {
    assert all[|own| + j] == (own + more)[|own| + j];
  }

  /** A market asleep in its own venue's log is woken only by a snapshot further on in that log. */
  lemma {:induction false} WokenFromOwnLog(
      states: Store, own: seq<VenueSessionEvent>, all: seq<VenueSessionEvent>,
      before: seq<VenueSessionEvent>, since: seq<VenueSessionEvent>, market: MarketKey) returns (i: nat)
    requires OfVenue(before, market.venue) == own && OfVenue(before + since, market.venue) <= all
    requires !IsLive(StoreAfter(states, own), market) && IsLive(StoreAfter(states, before + since), market)
    ensures |own| <= i < |all| && all[i] in since && IsSnapshotFor(all[i], market)
  {
    LiveByOwnVenue(states, before, market);
    LiveAgainNeedsSnapshot(states, before, since, market);
    var j :| 0 <= j < |since| && since[j].Trusted? && since[j].event.kind.Snapshot? && since[j].Market() == market;
    OfVenueConcat(before, since, market.venue);
    OfVenueKeeps(since, j);
    var place :| 0 <= place < |OfVenue(since, market.venue)| && OfVenue(since, market.venue)[place] == since[j];
    PrefixAt(own, OfVenue(since, market.venue), all, place);
    i := |own| + place;
  }

  // ---------- Waking up ----------

  lemma {:induction false} CoinbaseAsleep(
      states: Store, universe: Universe, wires: seq<Option<seq<Frame>>>, n: nat,
      before: seq<VenueSessionEvent>, product: Product)
    requires 0 < n <= |wires| && product in universe
    requires OfVenue(before, Coinbase) == RunCoinbase(universe, wires[..n]).sunk
    ensures !IsLive(StoreAfter(states, before), MarketKey(Coinbase, product))
    ensures !IsLive(StoreAfter(states, RunCoinbase(universe, wires[..n]).sunk), MarketKey(Coinbase, product))
  {
    NoCoinbaseMarketLiveAsleep(states, universe, wires[..n]);
    LiveByOwnVenue(states, before, MarketKey(Coinbase, product));
  }

  lemma {:induction false} CoinbaseWaker(
      states: Store, universe: Universe, wires: seq<Option<seq<Frame>>>, n: nat,
      before: seq<VenueSessionEvent>, since: seq<VenueSessionEvent>, market: MarketKey)
      returns (k: nat, e: VenueSessionEvent)
    requires 0 < n < |wires| && market.venue == Coinbase
    requires OfVenue(before, Coinbase) == RunCoinbase(universe, wires[..n]).sunk
    requires OfVenue(before + since, Coinbase) <= RunCoinbase(universe, wires).sunk
    requires !IsLive(StoreAfter(states, RunCoinbase(universe, wires[..n]).sunk), market)
    requires IsLive(StoreAfter(states, before + since), market)
    ensures n <= k < |wires| && e in CoinbaseEmitted(universe, wires, k) && e in since && IsSnapshotFor(e, market)
  {
    var own, all := RunCoinbase(universe, wires[..n]).sunk, RunCoinbase(universe, wires).sunk;
    var i := WokenFromOwnLog(states, own, all, before, since, market);
    k := CoinbaseEmitter(universe, wires, n, i);
    e := all[i];
  }

  /**
   In any interleaving of both sinks, a Coinbase market of the universe is not Live while
   its runner sleeps after connection `n`, and whenever it is Live later on, a snapshot of
   it has come since then, emitted by the session of a later Coinbase connection.
   */
  lemma {:induction false} CoinbaseWakesBySnapshot(
      states: Store, universe: Universe, wires: seq<Option<seq<Frame>>>, n: nat,
      before: seq<VenueSessionEvent>, since: seq<VenueSessionEvent>, product: Product)
    requires 0 < n < |wires| && product in universe
    requires OfVenue(before, Coinbase) == RunCoinbase(universe, wires[..n]).sunk
    requires OfVenue(before + since, Coinbase) <= RunCoinbase(universe, wires).sunk
    ensures var market := MarketKey(Coinbase, product);
      && !IsLive(StoreAfter(states, before), market)
      && (IsLive(StoreAfter(states, before + since), market) ==>
            exists k, e :: n <= k < |wires| && e in CoinbaseEmitted(universe, wires, k)
              && e in since && IsSnapshotFor(e, market))
  {
    var market := MarketKey(Coinbase, product);
    CoinbaseAsleep(states, universe, wires, n, before, product);
    if IsLive(StoreAfter(states, before + since), market) {
      var k, e := CoinbaseWaker(states, universe, wires, n, before, since, market);
    }
  }

  lemma {:induction false} KrakenAsleep(
      states: Store, env: Environment, universe: Universe, wires: seq<Option<seq<KrakenFrame>>>, n: nat,
      before: seq<VenueSessionEvent>, product: Product)
    requires 0 < n <= |wires| && product in universe
    requires OfVenue(before, Kraken) == RunKraken(env, universe, wires[..n]).sunk
    ensures !IsLive(StoreAfter(states, before), MarketKey(Kraken, product))
    ensures !IsLive(StoreAfter(states, RunKraken(env, universe, wires[..n]).sunk), MarketKey(Kraken, product))
  {
    NoKrakenMarketLiveAsleep(env, states, universe, wires[..n]);
    LiveByOwnVenue(states, before, MarketKey(Kraken, product));
  }

  lemma {:induction false} KrakenWaker(
      states: Store, env: Environment, universe: Universe, wires: seq<Option<seq<KrakenFrame>>>, n: nat,
      before: seq<VenueSessionEvent>, since: seq<VenueSessionEvent>, market: MarketKey)
      returns (k: nat, e: VenueSessionEvent)
    requires 0 < n < |wires| && market.venue == Kraken
    requires OfVenue(before, Kraken) == RunKraken(env, universe, wires[..n]).sunk
    requires OfVenue(before + since, Kraken) <= RunKraken(env, universe, wires).sunk
    requires !IsLive(StoreAfter(states, RunKraken(env, universe, wires[..n]).sunk), market)
    requires IsLive(StoreAfter(states, before + since), market)
    ensures n <= k < |wires| && e in KrakenEmitted(env, universe, wires, k) && e in since && IsSnapshotFor(e, market)
  {
    var own, all := RunKraken(env, universe, wires[..n]).sunk, RunKraken(env, universe, wires).sunk;
    var i := WokenFromOwnLog(states, own, all, before, since, market);
    k := KrakenEmitter(env, universe, wires, n, i);
    e := all[i];
  }

  /** The same for Kraken. */
  lemma {:induction false} KrakenWakesBySnapshot(
      states: Store, env: Environment, universe: Universe, wires: seq<Option<seq<KrakenFrame>>>, n: nat,
      before: seq<VenueSessionEvent>, since: seq<VenueSessionEvent>, product: Product)
    requires 0 < n < |wires| && product in universe
    requires OfVenue(before, Kraken) == RunKraken(env, universe, wires[..n]).sunk
    requires OfVenue(before + since, Kraken) <= RunKraken(env, universe, wires).sunk
    ensures var market := MarketKey(Kraken, product);
      && !IsLive(StoreAfter(states, before), market)
      && (IsLive(StoreAfter(states, before + since), market) ==>
            exists k, e :: n <= k < |wires| && e in KrakenEmitted(env, universe, wires, k)
              && e in since && IsSnapshotFor(e, market))
  {
    var market := MarketKey(Kraken, product);
    KrakenAsleep(states, env, universe, wires, n, before, product);
    if IsLive(StoreAfter(states, before + since), market) {
      var k, e := KrakenWaker(states, env, universe, wires, n, before, since, market);
    }
  }
}
