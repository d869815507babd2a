/**
 The runners that keep one venue's session alive: sessions come and go, every event
 passes the runner into the sink, and a failed session is followed by recovery
 statuses and a sleep.
 */
module VenueRunners {
  import opened Wrappers
  import opened VenueEvents
  import opened MarketStateStores
  import opened CoinbaseSessions
  import opened KrakenSessions

  /** `sunk` is everything handed to the sink so far; `finished` is set when no product is left to run. */
  datatype RunnerState = RunnerState(unsupported: set<Product>, sunk: seq<VenueSessionEvent>, finished: bool)

  const STARTED := RunnerState({}, [], false)

  predicate ValidMarket(venue: Venue, universe: Universe, e: VenueSessionEvent) {
    e.Market().venue == venue && e.Market().product in universe
  }

  function Sink(r: RunnerState, e: VenueSessionEvent): RunnerState {
    r.(sunk := r.sunk + [e])
  }

  // ---------- What each runner does with one event ----------

  /** `None` is an exception: the session is abandoned. */
  function AcceptCoinbase(universe: Universe, r: RunnerState, e: VenueSessionEvent): Option<RunnerState> {
    if !ValidMarket(Coinbase, universe, e) then None
    else
      var p := e.Market().product;
      if e.Status? && e.status == Unsupported then Some(Sink(r, e).(unsupported := r.unsupported + {p}))
      else if p in r.unsupported then if e.Status? then Some(r) else None
      else Some(Sink(r, e))
  }

  function AcceptKraken(universe: Universe, r: RunnerState, e: VenueSessionEvent): Option<RunnerState> {
    if !ValidMarket(Kraken, universe, e) then None
    else
      var p := e.Market().product;
      var unsupported :=
        if e.Status? && e.status == Unsupported then r.unsupported + {p}
        else if e.Status? && e.status == Connecting then r.unsupported - {p}
        else r.unsupported;
      Some(Sink(r, e).(unsupported := unsupported))
  }

  // ---------- One session, then recovery ----------

  function DriveCoinbase(universe: Universe, r: RunnerState, s: SessionState, wire: seq<Frame>): RunnerState
    requires Known(s)
    decreases |wire|, |s.pending|
  {
    ReadShrinks(s, wire);
    var read := CoinbaseSessions.ReadEvent(s, wire);
    if read.event.None? then r
    else match AcceptCoinbase(universe, r, read.event.value)
      case None => r
      case Some(next) => DriveCoinbase(universe, next, read.session, read.wire)
  }

  function DriveKraken(
      env: Environment, universe: Universe, r: RunnerState, s: KrakenState, wire: seq<KrakenFrame>): RunnerState
    requires Dispatches(s)
    decreases |wire|, |s.pending|
  {
    var read := ReadKraken(env, s, wire);
    if read.event.None? then r
    else match AcceptKraken(universe, r, read.event.value)
      case None => r
      case Some(next) => DriveKraken(env, universe, next, read.session, read.wire)
  }

  lemma {:induction false} DriveCoinbaseNext(universe: Universe, r: RunnerState, s: SessionState, wire: seq<Frame>)
    requires Known(s)
    ensures var read := CoinbaseSessions.ReadEvent(s, wire);
      read.event.Some? ==>
        DriveCoinbase(universe, r, s, wire) == match AcceptCoinbase(universe, r, read.event.value)
          case None => r
          case Some(next) => DriveCoinbase(universe, next, read.session, read.wire)
  {}

  lemma {:induction false} DriveKrakenNext(
      env: Environment, universe: Universe, r: RunnerState, s: KrakenState, wire: seq<KrakenFrame>)
    requires Dispatches(s)
    ensures var read := ReadKraken(env, s, wire);
      read.event.Some? ==>
        DriveKraken(env, universe, r, s, wire) == match AcceptKraken(universe, r, read.event.value)
          case None => r
          case Some(next) => DriveKraken(env, universe, next, read.session, read.wire)
  {}

  /** Disconnected, then Reconnecting and the sleep, unless every product is unsupported. */
  function Recover(venue: Venue, universe: Universe, r: RunnerState): RunnerState {
    var told := r.sunk + Statuses(venue, universe, r.unsupported, Disconnected);
    if |r.unsupported| == |universe| then r.(sunk := told, finished := true)
    else r.(sunk := told + Statuses(venue, universe, r.unsupported, Reconnecting))
  }

  function ActiveProducts(universe: Universe, unsupported: set<Product>): Universe {
    if universe == [] then []
    else
      var before, p := ActiveProducts(universe[..|universe| - 1], unsupported), universe[|universe| - 1];
      if p in unsupported then before else before + [p]
  }

  /** What one connection's session puts into the sink before it fails. */
  function CoinbaseSession(universe: Universe, r: RunnerState, wire: Option<seq<Frame>>): RunnerState {
    var active := ActiveProducts(universe, r.unsupported);
    if active == [] || wire.None? then r else DriveCoinbase(universe, r, Open(active), wire.value)
  }

  /** A connection is the frames it delivers before it breaks; `None` when it cannot be opened. */
  function CoinbaseConnection(universe: Universe, r: RunnerState, wire: Option<seq<Frame>>): RunnerState {
    if r.finished then r else Recover(Coinbase, universe, CoinbaseSession(universe, r, wire))
  }

  /** What one connection's session puts into the sink before it fails. */
  function KrakenSession(
      env: Environment, universe: Universe, r: RunnerState, wire: Option<seq<KrakenFrame>>): RunnerState {
    if wire.None? then r
    else match OpenOnWire(universe, wire.value)
      case None => r
      case Some(ready) => DriveKraken(env, universe, r, ready.session, ready.wire)
  }

  function KrakenConnection(
      env: Environment, universe: Universe, r: RunnerState, wire: Option<seq<KrakenFrame>>): RunnerState {
    if r.finished then r else Recover(Kraken, universe, KrakenSession(env, universe, r, wire))
  }

  function RunCoinbase(universe: Universe, wires: seq<Option<seq<Frame>>>): RunnerState {
    if wires == [] then STARTED
    else CoinbaseConnection(universe, RunCoinbase(universe, wires[..|wires| - 1]), wires[|wires| - 1])
  }

  function RunKraken(env: Environment, universe: Universe, wires: seq<Option<seq<KrakenFrame>>>): RunnerState {
    if wires == [] then STARTED
    else
      KrakenConnection(env, universe, RunKraken(env, universe, wires[..|wires| - 1]), wires[|wires| - 1])
  }

  // ---------- The store behind the sink ----------

  lemma {:induction false} StoreSnoc(states: Store, log: seq<VenueSessionEvent>, e: VenueSessionEvent)
    ensures StoreAfter(states, log + [e])
      == match Received(StoreAfter(states, log), e)
         case Success(next) => next
         case Failure(_) => StoreAfter(states, log)
  {
    assert (log + [e])[..|log|] == log;
  }

  /** One more event makes a market Live only if it is a trusted book of that market. */
  lemma {:induction false} LiveAfterEvent(
      states: Store, log: seq<VenueSessionEvent>, e: VenueSessionEvent, market: MarketKey)
    requires IsLive(StoreAfter(states, log + [e]), market)
    ensures (e.Market() == market && e.Trusted? && e.event.kind.Snapshot?) || IsLive(StoreAfter(states, log), market)
    ensures e.Market() == market ==> if e.Trusted? then !e.event.kind.Invalidated? else e.status == Live
  {
    StoreSnoc(states, log, e);
  }

  lemma {:induction false} StatusesSilence(
      states: Store, log: seq<VenueSessionEvent>, venue: Venue, products: seq<Product>, excluded: set<Product>,
      status: VenueMarketStatus, market: MarketKey)
    requires status != Live
    requires IsLive(StoreAfter(states, log + Statuses(venue, products, excluded, status)), market)
    ensures IsLive(StoreAfter(states, log), market)
    ensures market.venue == venue && market.product in products ==> market.product in excluded
  {
    if products == [] {
      assert log + [] == log;
    } else {
      var front, p := products[..|products| - 1], products[|products| - 1];
      assert products == front + [p];
      if p !in excluded {
        var e := Status(MarketKey(venue, p), status);
        assert log + Statuses(venue, products, excluded, status)
          == (log + Statuses(venue, front, excluded, status)) + [e];
        LiveAfterEvent(states, log + Statuses(venue, front, excluded, status), e, market);
      }
      StatusesSilence(states, log, venue, front, excluded, status, market);
    }
  }

  /** The runner's own record is right: an unsupported product is not Live in the store. */
  predicate UnsupportedNotLive(states: Store, venue: Venue, r: RunnerState) {
    forall p :: p in r.unsupported ==> !IsLive(StoreAfter(states, r.sunk), MarketKey(venue, p))
  }

  predicate NoneLive(states: Store, venue: Venue, universe: Universe, r: RunnerState) {
    forall p :: p in universe ==> !IsLive(StoreAfter(states, r.sunk), MarketKey(venue, p))
  }

  lemma {:induction false} RecoverSilences(states: Store, venue: Venue, universe: Universe, r: RunnerState)
    requires UnsupportedNotLive(states, venue, r)
    ensures var next := Recover(venue, universe, r);
      && NoneLive(states, venue, universe, next) && UnsupportedNotLive(states, venue, next)
      && next.unsupported == r.unsupported
  {
    var told := r.sunk + Statuses(venue, universe, r.unsupported, Disconnected);
    var next := Recover(venue, universe, r);
    forall p | IsLive(StoreAfter(states, next.sunk), MarketKey(venue, p))
      ensures p !in universe && p !in r.unsupported
    {
      if |r.unsupported| != |universe| {
        StatusesSilence(states, told, venue, universe, r.unsupported, Reconnecting, MarketKey(venue, p));
      }
      StatusesSilence(states, r.sunk, venue, universe, r.unsupported, Disconnected, MarketKey(venue, p));
    }
  }

  // ---------- Coinbase ----------

  lemma {:induction false} AcceptCoinbaseKeeps(states: Store, universe: Universe, r: RunnerState, e: VenueSessionEvent)
    requires UnsupportedNotLive(states, Coinbase, r) && AcceptCoinbase(universe, r, e).Some?
    ensures UnsupportedNotLive(states, Coinbase, AcceptCoinbase(universe, r, e).value)
  {
    var next := AcceptCoinbase(universe, r, e).value;
    forall p | p in next.unsupported ensures !IsLive(StoreAfter(states, next.sunk), MarketKey(Coinbase, p)) {
      if next.sunk != r.sunk && IsLive(StoreAfter(states, next.sunk), MarketKey(Coinbase, p)) {
        LiveAfterEvent(states, r.sunk, e, MarketKey(Coinbase, p));
      }
    }
  }

  lemma {:induction false} DriveCoinbaseKeeps(
      states: Store, universe: Universe, r: RunnerState, s: SessionState, wire: seq<Frame>)
    requires Known(s) && UnsupportedNotLive(states, Coinbase, r)
    ensures UnsupportedNotLive(states, Coinbase, DriveCoinbase(universe, r, s, wire))
    decreases |wire|, |s.pending|
  {
    ReadShrinks(s, wire);
    var read := CoinbaseSessions.ReadEvent(s, wire);
    if read.event.Some? && AcceptCoinbase(universe, r, read.event.value).Some? {
      AcceptCoinbaseKeeps(states, universe, r, read.event.value);
      DriveCoinbaseKeeps(states, universe, AcceptCoinbase(universe, r, read.event.value).value, read.session,
        read.wire);
    }
  }

  lemma {:induction false} CoinbaseSessionKeeps(
      states: Store, universe: Universe, r: RunnerState, wire: Option<seq<Frame>>)
    requires UnsupportedNotLive(states, Coinbase, r)
    ensures UnsupportedNotLive(states, Coinbase, CoinbaseSession(universe, r, wire))
  {
    var active := ActiveProducts(universe, r.unsupported);
    if active != [] && wire.Some? {
      DriveCoinbaseKeeps(states, universe, r, Open(active), wire.value);
    }
  }

  /** Whatever the connections delivered, no Coinbase market is Live while the runner sleeps or has finished. */
  lemma {:induction false} NoCoinbaseMarketLiveAsleep(states: Store, universe: Universe, wires: seq<Option<seq<Frame>>>)
    ensures UnsupportedNotLive(states, Coinbase, RunCoinbase(universe, wires))
    ensures wires != [] ==> NoneLive(states, Coinbase, universe, RunCoinbase(universe, wires))
  {
    if wires != [] {
      var r := RunCoinbase(universe, wires[..|wires| - 1]);
      NoCoinbaseMarketLiveAsleep(states, universe, wires[..|wires| - 1]);
      CoinbaseSessionKeeps(states, universe, r, wires[|wires| - 1]);
      RecoverSilences(states, Coinbase, universe, CoinbaseSession(universe, r, wires[|wires| - 1]));
    }
  }

  /** No event but Unsupported about a market that was once rejected. */
  predicate RejectionsAreFinal(sunk: seq<VenueSessionEvent>) {
    forall i, j :: 0 <= i < |sunk| && i < j < |sunk| ==>
      sunk[i].Status? && sunk[i].status == Unsupported && sunk[j].Market() == sunk[i].key ==> sunk[j] == sunk[i]
  }

  /** The runner remembers every rejection it has passed on. */
  predicate Remembers(r: RunnerState) {
    && RejectionsAreFinal(r.sunk)
    && forall i :: 0 <= i < |r.sunk| && r.sunk[i].Status? && r.sunk[i].status == Unsupported ==>
         r.sunk[i].key.venue == Coinbase && r.sunk[i].key.product in r.unsupported
  }

  lemma {:induction false} AcceptRemembers(universe: Universe, r: RunnerState, e: VenueSessionEvent)
    requires Remembers(r) && AcceptCoinbase(universe, r, e).Some?
    ensures Remembers(AcceptCoinbase(universe, r, e).value)
  {}

  lemma {:induction false} DriveRemembers(universe: Universe, r: RunnerState, s: SessionState, wire: seq<Frame>)
    requires Known(s) && Remembers(r)
    ensures Remembers(DriveCoinbase(universe, r, s, wire))
    decreases |wire|, |s.pending|
  {
    ReadShrinks(s, wire);
    var read := CoinbaseSessions.ReadEvent(s, wire);
    if read.event.Some? && AcceptCoinbase(universe, r, read.event.value).Some? {
      AcceptRemembers(universe, r, read.event.value);
      DriveRemembers(universe, AcceptCoinbase(universe, r, read.event.value).value, read.session, read.wire);
    }
  }

  lemma {:induction false} StatusesRemember(r: RunnerState, products: seq<Product>, status: VenueMarketStatus)
    requires Remembers(r) && status != Unsupported
    ensures Remembers(r.(sunk := r.sunk + Statuses(Coinbase, products, r.unsupported, status)))
  {
    if products == [] {
      assert r.sunk + [] == r.sunk;
    } else {
      var front, p := products[..|products| - 1], products[|products| - 1];
      StatusesRemember(r, front, status);
      if p !in r.unsupported {
        var e := Status(MarketKey(Coinbase, p), status);
        var before := r.sunk + Statuses(Coinbase, front, r.unsupported, status);
        assert r.sunk + Statuses(Coinbase, products, r.unsupported, status) == before + [e];
      }
    }
  }

  lemma {:induction false} RecoverRemembers(universe: Universe, r: RunnerState)
    requires Remembers(r)
    ensures Remembers(Recover(Coinbase, universe, r))
  {
    var told := r.(sunk := r.sunk + Statuses(Coinbase, universe, r.unsupported, Disconnected));
    StatusesRemember(r, universe, Disconnected);
    StatusesRemember(told, universe, Reconnecting);
  }

  lemma {:induction false} CoinbaseSessionRemembers(universe: Universe, r: RunnerState, wire: Option<seq<Frame>>)
    requires Remembers(r)
    ensures Remembers(CoinbaseSession(universe, r, wire))
  {
    var active := ActiveProducts(universe, r.unsupported);
    if active != [] && wire.Some? {
      DriveRemembers(universe, r, Open(active), wire.value);
    }
  }

  /** Once a product is Unsupported, nothing else about it reaches the sink in the rest of the run. */
  lemma {:induction false} UnsupportedIsFinal(universe: Universe, wires: seq<Option<seq<Frame>>>)
    ensures Remembers(RunCoinbase(universe, wires))
  {
    if wires != [] {
      var r := RunCoinbase(universe, wires[..|wires| - 1]);
      UnsupportedIsFinal(universe, wires[..|wires| - 1]);
      CoinbaseSessionRemembers(universe, r, wires[|wires| - 1]);
      RecoverRemembers(universe, CoinbaseSession(universe, r, wires[|wires| - 1]));
    }
  }

  // ---------- Kraken ----------

  /** Only statuses wait in the queue, and a queued rejection is already on record. */
  predicate QueueFits(s: KrakenState) {
    forall i :: 0 <= i < |s.pending| ==>
      s.pending[i].Status? && (s.pending[i].status == Unsupported ==> s.pending[i].key.product in s.unsupported)
  }

  /**
   What the runner calls unsupported is not Live, and the session either rejected it or will first
   report it connecting.
   */
  predicate Shields(states: Store, r: RunnerState, s: KrakenState) {
    && UnsupportedNotLive(states, Kraken, r) && QueueFits(s)
    && forall p :: p in r.unsupported ==> p in s.unsupported || StatusOf(p, Connecting) in s.pending
  }

  lemma {:induction false} FrameShields(env: Environment, states: Store, r: RunnerState, s: KrakenState, f: KrakenFrame)
    requires Dispatches(s) && Shields(states, r, s) && s.pending == [] && FrameStep(env, s, f).Some?
    ensures Shields(states, r, FrameStep(env, s, f).value)
  {}

  lemma {:induction false} PopShields(states: Store, universe: Universe, r: RunnerState, s: KrakenState)
    requires Shields(states, r, s) && s.pending != [] && AcceptKraken(universe, r, s.pending[0]).Some?
    ensures Shields(states, AcceptKraken(universe, r, s.pending[0]).value, s.(pending := s.pending[1..]))
  {
    var e := s.pending[0];
    var next := AcceptKraken(universe, r, e).value;
    forall p | p in next.unsupported
      ensures !IsLive(StoreAfter(states, next.sunk), MarketKey(Kraken, p))
      ensures p in s.unsupported || StatusOf(p, Connecting) in s.pending[1..]
    {
      if IsLive(StoreAfter(states, next.sunk), MarketKey(Kraken, p)) {
        LiveAfterEvent(states, r.sunk, e, MarketKey(Kraken, p));
      }
      assert s.pending == [e] + s.pending[1..];
    }
  }

  lemma {:induction false} TrustedShields(
      states: Store, universe: Universe, r: RunnerState, s: KrakenState, e: TrustedBookEvent)
    requires Shields(states, r, s) && s.pending == [] && e.market.product !in s.unsupported
    requires AcceptKraken(universe, r, Trusted(e)).Some?
    ensures Shields(states, AcceptKraken(universe, r, Trusted(e)).value, s)
  {
    var next := AcceptKraken(universe, r, Trusted(e)).value;
    forall p | p in next.unsupported ensures !IsLive(StoreAfter(states, next.sunk), MarketKey(Kraken, p)) {
      if IsLive(StoreAfter(states, next.sunk), MarketKey(Kraken, p)) {
        LiveAfterEvent(states, r.sunk, Trusted(e), MarketKey(Kraken, p));
      }
    }
  }

  lemma {:induction false} ReadShields(
      env: Environment, states: Store, universe: Universe, r: RunnerState, s: KrakenState, wire: seq<KrakenFrame>)
    requires Dispatches(s) && Shields(states, r, s)
    ensures var read := ReadKraken(env, s, wire);
      read.event.Some? && AcceptKraken(universe, r, read.event.value).Some? ==>
        Shields(states, AcceptKraken(universe, r, read.event.value).value, read.session)
    decreases |wire|
  {
    if s.pending != [] {
      if AcceptKraken(universe, r, s.pending[0]).Some? {
        PopShields(states, universe, r, s);
      }
    } else if !s.reconnect && wire != [] && FrameStep(env, s, wire[0]).Some? {
      var next := FrameStep(env, s, wire[0]).value;
      FrameShields(env, states, r, s, wire[0]);
      if wire[0].BookFrame? {
        var d := Dispatch(env, s, wire[0].symbol, wire[0].raw, wire[0].parsed).value;
        if d.event.None? {
          ReadShields(env, states, universe, r, next, wire[1..]);
        } else if AcceptKraken(universe, r, Trusted(d.event.value)).Some? {
          TrustedShields(states, universe, r, next, d.event.value);
        }
      } else {
        ReadShields(env, states, universe, r, next, wire[1..]);
      }
    }
  }

  predicate WithinUniverse(universe: Universe, r: RunnerState) {
    forall p :: p in r.unsupported ==> p in universe
  }

  lemma {:induction false} DriveKrakenKeeps(
      env: Environment, states: Store, universe: Universe, r: RunnerState, s: KrakenState, wire: seq<KrakenFrame>)
    requires Dispatches(s) && Shields(states, r, s) && WithinUniverse(universe, r)
    ensures var done := DriveKraken(env, universe, r, s, wire);
      UnsupportedNotLive(states, Kraken, done) && WithinUniverse(universe, done)
    decreases |wire|, |s.pending|
  {
    var read := ReadKraken(env, s, wire);
    if read.event.Some? && AcceptKraken(universe, r, read.event.value).Some? {
      ReadShields(env, states, universe, r, s, wire);
      DriveKrakenKeeps(env, states, universe, AcceptKraken(universe, r, read.event.value).value, read.session,
        read.wire);
    }
  }

  lemma {:induction false} StatusesName(venue: Venue, products: seq<Product>, status: VenueMarketStatus, p: Product)
    requires p in products
    ensures Status(MarketKey(venue, p), status) in Statuses(venue, products, {}, status)
  {
    var front, last := products[..|products| - 1], products[|products| - 1];
    assert products == front + [last];
    if p != last {
      StatusesName(venue, front, status, p);
    }
  }

  lemma {:induction false} StatusesQueueFits(s: KrakenState, products: seq<Product>)
    requires s.pending == Statuses(Kraken, products, {}, Connecting)
    ensures QueueFits(s)
    decreases |products|
  {
    if products != [] {
      StatusesQueueFits(s.(pending := Statuses(Kraken, products[..|products| - 1], {}, Connecting)),
        products[..|products| - 1]);
    }
  }

  lemma {:induction false} ConfigureQueue(s: KrakenState, catalog: Catalog, products: seq<Product>)
    requires Dispatches(s) && QueueFits(s) && Configure(s, catalog, products).Some?
    ensures QueueFits(Configure(s, catalog, products).value)
    ensures s.pending <= Configure(s, catalog, products).value.pending
  {
    if products != [] {
      ConfigureQueue(s, catalog, products[..|products| - 1]);
    }
  }

  lemma {:induction false} OpenShields(states: Store, universe: Universe, r: RunnerState, catalog: Catalog)
    requires UnsupportedNotLive(states, Kraken, r) && WithinUniverse(universe, r)
    requires OpenKraken(universe, catalog).Some?
    ensures Shields(states, r, OpenKraken(universe, catalog).value)
  {
    var s0, s := Unconfigured(universe), OpenKraken(universe, catalog).value;
    StatusesQueueFits(s0, universe);
    ConfigureQueue(s0, catalog, universe);
    forall p | p in r.unsupported ensures StatusOf(p, Connecting) in s.pending {
      StatusesName(Kraken, universe, Connecting, p);
      var i :| 0 <= i < |s0.pending| && s0.pending[i] == StatusOf(p, Connecting);
      assert s.pending[i] == s0.pending[i];
    }
  }

  lemma {:induction false} KrakenSessionKeeps(
      env: Environment, states: Store, universe: Universe, r: RunnerState, wire: Option<seq<KrakenFrame>>)
    requires UnsupportedNotLive(states, Kraken, r) && WithinUniverse(universe, r)
    ensures var done := KrakenSession(env, universe, r, wire);
      UnsupportedNotLive(states, Kraken, done) && WithinUniverse(universe, done)
  {
    if wire.Some? && OpenOnWire(universe, wire.value).Some? {
      var ready := OpenOnWire(universe, wire.value).value;
      OpenShields(states, universe, r, Discover(wire.value).value.0);
      DriveKrakenKeeps(env, states, universe, r, ready.session, ready.wire);
    }
  }

  /**
   The same for Kraken, although its runner forgets a rejection when a new session
   reports the product connecting: the session itself keeps rejected products silent.
   */
  lemma {:induction false} NoKrakenMarketLiveAsleep(
      env: Environment, states: Store, universe: Universe, wires: seq<Option<seq<KrakenFrame>>>)
    ensures var r := RunKraken(env, universe, wires);
      && UnsupportedNotLive(states, Kraken, r) && WithinUniverse(universe, r)
      && (wires != [] ==> NoneLive(states, Kraken, universe, r))
  {
    if wires != [] {
      var r := RunKraken(env, universe, wires[..|wires| - 1]);
      NoKrakenMarketLiveAsleep(env, states, universe, wires[..|wires| - 1]);
      KrakenSessionKeeps(env, states, universe, r, wires[|wires| - 1]);
      RecoverSilences(states, Kraken, universe, KrakenSession(env, universe, r, wires[|wires| - 1]));
    }
  }

  // ---------- What each session hands on ----------

  lemma {:induction false} RecoveryAddsStatuses(venue: Venue, universe: Universe, r: RunnerState)
    ensures r.sunk <= Recover(venue, universe, r).sunk
    ensures OnlyStatuses(Recover(venue, universe, r).sunk[|r.sunk|..])
  {
    StatusesOnly(venue, universe, r.unsupported, Disconnected);
    StatusesOnly(venue, universe, r.unsupported, Reconnecting);
  }

  lemma {:induction false} DriveCoinbaseExtends(universe: Universe, r: RunnerState, s: SessionState, wire: seq<Frame>)
    requires Known(s)
    ensures r.sunk <= DriveCoinbase(universe, r, s, wire).sunk
    decreases |wire|, |s.pending|
  {
    ReadShrinks(s, wire);
    var read := CoinbaseSessions.ReadEvent(s, wire);
    if read.event.Some? && AcceptCoinbase(universe, r, read.event.value).Some? {
      DriveCoinbaseExtends(universe, AcceptCoinbase(universe, r, read.event.value).value, read.session, read.wire);
    }
  }

  lemma {:induction false} DriveKrakenExtends(
      env: Environment, universe: Universe, r: RunnerState, s: KrakenState, wire: seq<KrakenFrame>)
    requires Dispatches(s)
    ensures r.sunk <= DriveKraken(env, universe, r, s, wire).sunk
    decreases |wire|, |s.pending|
  {
    var read := ReadKraken(env, s, wire);
    if read.event.Some? && AcceptKraken(universe, r, read.event.value).Some? {
      DriveKrakenExtends(env, universe, AcceptKraken(universe, r, read.event.value).value, read.session, read.wire);
    }
  }

  lemma {:induction false} CoinbaseSessionExtends(universe: Universe, r: RunnerState, wire: Option<seq<Frame>>)
    ensures r.sunk <= CoinbaseSession(universe, r, wire).sunk
  {
    var active := ActiveProducts(universe, r.unsupported);
    if active != [] && wire.Some? {
      DriveCoinbaseExtends(universe, r, Open(active), wire.value);
    }
  }

  lemma {:induction false} KrakenSessionExtends(
      env: Environment, universe: Universe, r: RunnerState, wire: Option<seq<KrakenFrame>>)
    ensures r.sunk <= KrakenSession(env, universe, r, wire).sunk
  {
    if wire.Some? && OpenOnWire(universe, wire.value).Some? {
      var ready := OpenOnWire(universe, wire.value).value;
      DriveKrakenExtends(env, universe, r, ready.session, ready.wire);
    }
  }

  /** The events that the session of connection `k` handed on, without the recovery after it. */
  function CoinbaseEmitted(universe: Universe, wires: seq<Option<seq<Frame>>>, k: nat): seq<VenueSessionEvent>
    requires k < |wires|
  {
    var r := RunCoinbase(universe, wires[..k]);
    CoinbaseSessionExtends(universe, r, wires[k]);
    if r.finished then [] else CoinbaseSession(universe, r, wires[k]).sunk[|r.sunk|..]
  }

  function KrakenEmitted(
      env: Environment, universe: Universe, wires: seq<Option<seq<KrakenFrame>>>, k: nat): seq<VenueSessionEvent>
    requires k < |wires|
  {
    var r := RunKraken(env, universe, wires[..k]);
    KrakenSessionExtends(env, universe, r, wires[k]);
    if r.finished then [] else KrakenSession(env, universe, r, wires[k]).sunk[|r.sunk|..]
  }

  /** One connection adds what its session emitted, then only statuses. */
  predicate Adds(before: seq<VenueSessionEvent>, emitted: seq<VenueSessionEvent>, after: seq<VenueSessionEvent>) {
    before + emitted <= after && OnlyStatuses(after[|before + emitted|..])
  }

  lemma {:induction false} RecoveryAdds(
      venue: Venue, universe: Universe, before: seq<VenueSessionEvent>, done: RunnerState)
    requires before <= done.sunk
    ensures Adds(before, done.sunk[|before|..], Recover(venue, universe, done).sunk)
  {
    RecoveryAddsStatuses(venue, universe, done);
    assert before + done.sunk[|before|..] == done.sunk;
  }

  lemma {:induction false} NothingAdded(log: seq<VenueSessionEvent>)
    ensures Adds(log, [], log)
  {
    assert log + [] == log;
  }

  lemma {:induction false} TrustedWasEmitted(
      before: seq<VenueSessionEvent>, emitted: seq<VenueSessionEvent>, after: seq<VenueSessionEvent>, i: nat)
    requires Adds(before, emitted, after) && |before| <= i < |after| && after[i].Trusted?
    ensures after[i] in emitted
  {
    var known, rest := before + emitted, after[|before + emitted|..];
    forall j | |known| <= j < |after| ensures after[j].Status? {
      assert after[j] == rest[j - |known|];
    }
    assert i < |known|;
    assert after[i] == known[i] == emitted[i - |before|];
  }

  lemma {:induction false} EarlierKept(
      before: seq<VenueSessionEvent>, emitted: seq<VenueSessionEvent>, after: seq<VenueSessionEvent>, i: nat)
    requires Adds(before, emitted, after) && i < |before|
    ensures i < |after| && after[i] == before[i]
  {
    assert after[i] == (before + emitted)[i];
  }

  // ---------- Which session an event came from ----------

  /** The logs after each connection, and what each session emitted. */
  predicate StepAt(logs: seq<seq<VenueSessionEvent>>, emitted: seq<seq<VenueSessionEvent>>, k: nat)
    requires k < |emitted| && |logs| == |emitted| + 1
  {
    Adds(logs[k], emitted[k], logs[k + 1])
  }

  predicate Chain(logs: seq<seq<VenueSessionEvent>>, emitted: seq<seq<VenueSessionEvent>>) {
    |logs| == |emitted| + 1 && forall k :: 0 <= k < |emitted| ==> StepAt(logs, emitted, k)
  }

  lemma {:induction false} ChainExtends(
      logs: seq<seq<VenueSessionEvent>>, emitted: seq<seq<VenueSessionEvent>>, n: nat, m: nat)
    requires Chain(logs, emitted) && n <= m < |logs|
    ensures logs[n] <= logs[m]
    decreases m
  {
    if n < m {
      ChainExtends(logs, emitted, n, m - 1);
      assert StepAt(logs, emitted, m - 1);
    }
  }

  /** A trusted event that was not there after connection `n` was emitted by a later session. */
  lemma {:induction false} Emitter(
      logs: seq<seq<VenueSessionEvent>>, emitted: seq<seq<VenueSessionEvent>>, n: nat, m: nat, i: nat)
      returns (k: nat)
    requires Chain(logs, emitted) && n < m < |logs| && |logs[n]| <= i < |logs[m]| && logs[m][i].Trusted?
    ensures n <= k < m && logs[m][i] in emitted[k]
    decreases m
  {
    k := m - 1;
    assert StepAt(logs, emitted, k);
    if n < k && i < |logs[k]| {
      EarlierKept(logs[k], emitted[k], logs[m], i);
      k := Emitter(logs, emitted, n, k, i);
    } else {
      TrustedWasEmitted(logs[k], emitted[k], logs[m], i);
    }
  }

  function CoinbaseLogs(universe: Universe, wires: seq<Option<seq<Frame>>>): seq<seq<VenueSessionEvent>> {
    seq(|wires| + 1, k requires 0 <= k <= |wires| => RunCoinbase(universe, wires[..k]).sunk)
  }

  function CoinbaseEmissions(universe: Universe, wires: seq<Option<seq<Frame>>>): seq<seq<VenueSessionEvent>> {
    seq(|wires|, k requires 0 <= k < |wires| => CoinbaseEmitted(universe, wires, k))
  }

  lemma {:induction false} CoinbaseAdds(universe: Universe, wires: seq<Option<seq<Frame>>>, k: nat)
    requires k < |wires|
    ensures Adds(RunCoinbase(universe, wires[..k]).sunk, CoinbaseEmitted(universe, wires, k),
      RunCoinbase(universe, wires[..k + 1]).sunk)
  {
    var r := RunCoinbase(universe, wires[..k]);
    assert wires[..k + 1][..k] == wires[..k];
    CoinbaseSessionExtends(universe, r, wires[k]);
    RecoveryAdds(Coinbase, universe, r.sunk, CoinbaseSession(universe, r, wires[k]));
    NothingAdded(r.sunk);
  }

  lemma {:induction false} CoinbaseChain(universe: Universe, wires: seq<Option<seq<Frame>>>)
    ensures Chain(CoinbaseLogs(universe, wires), CoinbaseEmissions(universe, wires))
  {
    var logs, emitted := CoinbaseLogs(universe, wires), CoinbaseEmissions(universe, wires);
    forall k | 0 <= k < |emitted| ensures StepAt(logs, emitted, k) {
      CoinbaseAdds(universe, wires, k);
    }
  }

  lemma {:induction false} CoinbaseRunExtends(universe: Universe, wires: seq<Option<seq<Frame>>>, n: nat)
    requires n <= |wires|
    ensures RunCoinbase(universe, wires[..n]).sunk <= RunCoinbase(universe, wires).sunk
  {
    CoinbaseChain(universe, wires);
    ChainExtends(CoinbaseLogs(universe, wires), CoinbaseEmissions(universe, wires), n, |wires|);
    assert wires[..|wires|] == wires;
  }

  lemma {:induction false} CoinbaseEmitter(universe: Universe, wires: seq<Option<seq<Frame>>>, n: nat, i: nat)
      returns (k: nat)
    requires n < |wires| && |RunCoinbase(universe, wires[..n]).sunk| <= i
    requires i < |RunCoinbase(universe, wires).sunk| && RunCoinbase(universe, wires).sunk[i].Trusted?
    ensures n <= k < |wires| && RunCoinbase(universe, wires).sunk[i] in CoinbaseEmitted(universe, wires, k)
  {
    CoinbaseChain(universe, wires);
    assert wires[..|wires|] == wires;
    k := Emitter(CoinbaseLogs(universe, wires), CoinbaseEmissions(universe, wires), n, |wires|, i);
  }

  function KrakenLogs(env: Environment, universe: Universe, wires: seq<Option<seq<KrakenFrame>>>)
    : seq<seq<VenueSessionEvent>>
  {
    seq(|wires| + 1, k requires 0 <= k <= |wires| => RunKraken(env, universe, wires[..k]).sunk)
  }

  function KrakenEmissions(env: Environment, universe: Universe, wires: seq<Option<seq<KrakenFrame>>>)
    : seq<seq<VenueSessionEvent>>
  {
    seq(|wires|, k requires 0 <= k < |wires| => KrakenEmitted(env, universe, wires, k))
  }

  lemma {:induction false} KrakenAdds(
      env: Environment, universe: Universe, wires: seq<Option<seq<KrakenFrame>>>, k: nat)
    requires k < |wires|
    ensures Adds(RunKraken(env, universe, wires[..k]).sunk, KrakenEmitted(env, universe, wires, k),
      RunKraken(env, universe, wires[..k + 1]).sunk)
  {
    var r := RunKraken(env, universe, wires[..k]);
    assert wires[..k + 1][..k] == wires[..k];
    KrakenSessionExtends(env, universe, r, wires[k]);
    RecoveryAdds(Kraken, universe, r.sunk, KrakenSession(env, universe, r, wires[k]));
    NothingAdded(r.sunk);
  }

  lemma {:induction false} KrakenChain(env: Environment, universe: Universe, wires: seq<Option<seq<KrakenFrame>>>)
    ensures Chain(KrakenLogs(env, universe, wires), KrakenEmissions(env, universe, wires))
  {
    var logs, emitted := KrakenLogs(env, universe, wires), KrakenEmissions(env, universe, wires);
    forall k | 0 <= k < |emitted| ensures StepAt(logs, emitted, k) {
      KrakenAdds(env, universe, wires, k);
    }
  }

  lemma {:induction false} KrakenRunExtends(
      env: Environment, universe: Universe, wires: seq<Option<seq<KrakenFrame>>>, n: nat)
    requires n <= |wires|
    ensures RunKraken(env, universe, wires[..n]).sunk <= RunKraken(env, universe, wires).sunk
  {
    KrakenChain(env, universe, wires);
    ChainExtends(KrakenLogs(env, universe, wires), KrakenEmissions(env, universe, wires), n, |wires|);
    assert wires[..|wires|] == wires;
  }

  lemma {:induction false} KrakenEmitter(
      env: Environment, universe: Universe, wires: seq<Option<seq<KrakenFrame>>>, n: nat, i: nat)
      returns (k: nat)
    requires n < |wires| && |RunKraken(env, universe, wires[..n]).sunk| <= i
    requires i < |RunKraken(env, universe, wires).sunk| && RunKraken(env, universe, wires).sunk[i].Trusted?
    ensures n <= k < |wires| && RunKraken(env, universe, wires).sunk[i] in KrakenEmitted(env, universe, wires, k)
  {
    KrakenChain(env, universe, wires);
    assert wires[..|wires|] == wires;
    k := Emitter(KrakenLogs(env, universe, wires), KrakenEmissions(env, universe, wires), n, |wires|, i);
  }
}
