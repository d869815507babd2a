/**
 What a reader of one Kraken connection gets: every product's trusted events are those
 of its own adapter's run, and an invalidation is the last event of the connection.
 */
module KrakenReaders {
  import opened Wrappers
  import opened VenueEvents
  import opened KrakenAdapter
  import opened KrakenSessions

  // ---------- One adapter's events ----------

  function EventOf(cfg: AdapterConfig, s: AdapterState, input: Input): seq<TrustedBookEvent> {
    match input
    case ResetCall => []
    case Message(raw, m) =>
      match EventFor(cfg, s, Decide(cfg, s, raw, m))
      case None => []
      case Some(event) => [event]
  }

  /** Everything an adapter says during a run. */
  function EventsOf(cfg: AdapterConfig, inputs: seq<Input>): seq<TrustedBookEvent> {
    if inputs == [] then []
    else
      var before := inputs[..|inputs| - 1];
      EventsOf(cfg, before) + EventOf(cfg, Run(cfg, before), inputs[|inputs| - 1])
  }

  lemma {:induction false} EventsSnoc(cfg: AdapterConfig, inputs: seq<Input>, input: Input)
    ensures EventsOf(cfg, inputs + [input]) == EventsOf(cfg, inputs) + EventOf(cfg, Run(cfg, inputs), input)
  {
    assert (inputs + [input])[..|inputs|] == inputs;
  }

  // ---------- Reading until the session fails ----------

  /** Every event read until the session fails. */
  function Emissions(env: Environment, s: KrakenState, wire: seq<KrakenFrame>): seq<VenueSessionEvent>
    requires Dispatches(s)
    decreases |wire|, |s.pending|
  {
    var r := ReadKraken(env, s, wire);
    if r.event.None? then [] else [r.event.value] + Emissions(env, r.session, r.wire)
  }

  /** How many frames a session takes before it fails or the wire ends; what is queued does not matter. */
  function Survived(env: Environment, s: KrakenState, wire: seq<KrakenFrame>): (n: nat)
    requires Dispatches(s)
    ensures n <= |wire|
    decreases |wire|
  {
    var idle := s.(pending := []);
    if s.reconnect || wire == [] || FrameStep(env, idle, wire[0]).None? then 0
    else 1 + Survived(env, FrameStep(env, idle, wire[0]).value, wire[1..])
  }

  /** A product's trusted events among a session's events. */
  function TrustedOf(log: seq<VenueSessionEvent>, market: MarketKey): seq<TrustedBookEvent> {
    if log == [] then []
    else
      var later := TrustedOf(log[1..], market);
      if log[0].Trusted? && log[0].event.market == market then [log[0].event] + later else later
  }

  /** What one frame means to the adapter of a native symbol. */
  function InputOf(f: KrakenFrame, symbol: string): seq<Input> {
    if f.BookFrame? && f.symbol == symbol then [Message(f.raw, f.parsed)]
    else if f.Acknowledgement? && f.symbol == symbol && f.answer == RejectedForGood then [ResetCall]
    else []
  }

  lemma {:induction false} InputsSnoc(frames: seq<KrakenFrame>, f: KrakenFrame, symbol: string)
    ensures InputsFor(frames + [f], symbol) == InputsFor(frames, symbol) + InputOf(f, symbol)
  {
    assert (frames + [f])[..|frames|] == frames;
  }

  /** The trusted event one frame brings a reader. */
  function FrameEvent(env: Environment, s: KrakenState, f: KrakenFrame): Option<TrustedBookEvent>
    requires Dispatches(s)
  {
    if !f.BookFrame? then None
    else match Dispatch(env, s, f.symbol, f.raw, f.parsed)
      case None => None
      case Some(d) => d.event
  }

  function FrameLog(env: Environment, s: KrakenState, f: KrakenFrame): seq<VenueSessionEvent>
    requires Dispatches(s)
  {
    match FrameEvent(env, s, f) case None => [] case Some(event) => [Trusted(event)]
  }

  /** One turn of the reading loop of a session with nothing queued. */
  lemma {:induction false} EmissionsStep(env: Environment, s: KrakenState, wire: seq<KrakenFrame>)
    requires Dispatches(s) && s.pending == [] && !s.reconnect && wire != [] && FrameStep(env, s, wire[0]).Some?
    ensures var next := FrameStep(env, s, wire[0]).value;
      Emissions(env, s, wire)
        == FrameLog(env, s, wire[0]) + Emissions(env, next, wire[1..])
  {
    var next := FrameStep(env, s, wire[0]).value;
    if FrameEvent(env, s, wire[0]).None? {
      assert ReadKraken(env, s, wire) == ReadKraken(env, next, wire[1..]);
      assert [] + Emissions(env, next, wire[1..]) == Emissions(env, next, wire[1..]);
    }
  }

  lemma {:induction false} EmissionsPop(env: Environment, s: KrakenState, wire: seq<KrakenFrame>)
    requires Dispatches(s) && s.pending != []
    ensures Emissions(env, s, wire) == [s.pending[0]] + Emissions(env, s.(pending := s.pending[1..]), wire)
  {}

  lemma {:induction false} EmissionsEnd(env: Environment, s: KrakenState, wire: seq<KrakenFrame>)
    requires Dispatches(s) && s.pending == []
    requires s.reconnect || wire == [] || FrameStep(env, s, wire[0]).None?
    ensures Emissions(env, s, wire) == []
  {}

  lemma {:induction false} StepQueuesStatuses(env: Environment, s: KrakenState, f: KrakenFrame)
    requires Dispatches(s) && OnlyStatuses(s.pending) && FrameStep(env, s, f).Some?
    ensures OnlyStatuses(FrameStep(env, s, f).value.pending)
  {}

  // ---------- An invalidation ends the session ----------

  predicate IsInvalidation(e: VenueSessionEvent) {
    e.Trusted? && e.event.kind.Invalidated?
  }

  /** Nothing follows an invalidation. */
  lemma {:induction false} InvalidationIsLast(env: Environment, s: KrakenState, wire: seq<KrakenFrame>, i: nat)
    requires Dispatches(s) && OnlyStatuses(s.pending)
    requires i < |Emissions(env, s, wire)| && IsInvalidation(Emissions(env, s, wire)[i])
    ensures i == |Emissions(env, s, wire)| - 1
    decreases |wire|, |s.pending|
  {
    if s.pending != [] {
      EmissionsPop(env, s, wire);
      InvalidationIsLast(env, s.(pending := s.pending[1..]), wire, i - 1);
    } else if s.reconnect || wire == [] || FrameStep(env, s, wire[0]).None? {
      EmissionsEnd(env, s, wire);
    } else {
      var next := FrameStep(env, s, wire[0]).value;
      EmissionsStep(env, s, wire);
      StepQueuesStatuses(env, s, wire[0]);
      if FrameEvent(env, s, wire[0]).None? {
        InvalidationIsLast(env, next, wire[1..], i);
      } else if i > 0 {
        InvalidationIsLast(env, next, wire[1..], i - 1);
      } else {
        EmissionsEnd(env, next, wire[1..]);
      }
    }
  }

  // ---------- A product's events are its adapter's ----------

  /** A frame brings a product exactly what its adapter says to its input. */
  lemma {:induction false} FrameSaysInput(
      env: Environment, s: KrakenState, catalog: Catalog, f: KrakenFrame, symbol: string)
    requires Dispatches(s) && OneSymbolEach(s, catalog) && symbol in s.byNative && FrameStep(env, s, f).Some?
    ensures var p := s.byNative[symbol];
      var cfg := AdapterConfigFor(env, p, symbol);
      TrustedOf(FrameLog(env, s, f), KrakenMarket(p))
        == if InputOf(f, symbol) == [] then [] else EventOf(cfg, s.adapters[p], InputOf(f, symbol)[0])
  {}

  lemma {:induction false} TrustedConcat(a: seq<VenueSessionEvent>, b: seq<VenueSessionEvent>, market: MarketKey)
    ensures TrustedOf(a + b, market) == TrustedOf(a, market) + TrustedOf(b, market)
  {
    if a == [] {
      assert a + b == b;
    } else {
      TrustedConcat(a[1..], b, market);
      assert (a + b)[1..] == a[1..] + b;
    }
  }

  /** The adapter of the symbol has come as far as the frames taken so far. */
  predicate InRun(env: Environment, s: KrakenState, catalog: Catalog, done: seq<KrakenFrame>, symbol: string) {
    && Dispatches(s) && OneSymbolEach(s, catalog) && symbol in s.byNative
    && s.adapters[s.byNative[symbol]]
       == Run(AdapterConfigFor(env, s.byNative[symbol], symbol), InputsFor(done, symbol))
  }

  lemma {:induction false} StepInRun(
      env: Environment, s: KrakenState, catalog: Catalog, done: seq<KrakenFrame>, f: KrakenFrame, symbol: string)
    requires InRun(env, s, catalog, done, symbol) && FrameStep(env, s, f).Some?
    ensures var next := FrameStep(env, s, f).value;
      InRun(env, next, catalog, done + [f], symbol) && next.byNative == s.byNative
    ensures var cfg := AdapterConfigFor(env, s.byNative[symbol], symbol);
      EventsOf(cfg, InputsFor(done + [f], symbol))
        == EventsOf(cfg, InputsFor(done, symbol)) + TrustedOf(FrameLog(env, s, f), KrakenMarket(s.byNative[symbol]))
  {
    var cfg := AdapterConfigFor(env, s.byNative[symbol], symbol);
    InputsSnoc(done, f, symbol);
    FrameStepKeepsSymbols(env, s, catalog, f, symbol);
    FrameSaysInput(env, s, catalog, f, symbol);
    if InputOf(f, symbol) == [] {
      assert InputsFor(done, symbol) + [] == InputsFor(done, symbol);
    } else {
      RunSnoc(cfg, InputsFor(done, symbol), InputOf(f, symbol)[0]);
      EventsSnoc(cfg, InputsFor(done, symbol), InputOf(f, symbol)[0]);
    }
  }

  /** What was said before and what is read from now on is the whole run. */
  predicate ReadsRun(
      env: Environment, s: KrakenState, done: seq<KrakenFrame>, wire: seq<KrakenFrame>, symbol: string)
    requires Dispatches(s) && symbol in s.byNative
  {
    var cfg := AdapterConfigFor(env, s.byNative[symbol], symbol);
    EventsOf(cfg, InputsFor(done, symbol)) + TrustedOf(Emissions(env, s, wire), KrakenMarket(s.byNative[symbol]))
      == EventsOf(cfg, InputsFor(done + wire[..Survived(env, s, wire)], symbol))
  }

  lemma {:induction false} ReadPop(
      env: Environment, s: KrakenState, done: seq<KrakenFrame>, wire: seq<KrakenFrame>, symbol: string)
    requires Dispatches(s) && symbol in s.byNative && s.pending != [] && s.pending[0].Status?
    requires ReadsRun(env, s.(pending := s.pending[1..]), done, wire, symbol)
    ensures ReadsRun(env, s, done, wire, symbol)
  {
    var next, market := s.(pending := s.pending[1..]), KrakenMarket(s.byNative[symbol]);
    assert TrustedOf(Emissions(env, s, wire), market) == TrustedOf(Emissions(env, next, wire), market) by {
      EmissionsPop(env, s, wire);
    }
    assert Survived(env, s, wire) == Survived(env, next, wire) by {
      assert next.(pending := []) == s.(pending := []);
    }
  }

  lemma {:induction false} SurvivedStep(
      env: Environment, s: KrakenState, done: seq<KrakenFrame>, wire: seq<KrakenFrame>)
    requires Dispatches(s) && s.pending == [] && !s.reconnect && wire != [] && FrameStep(env, s, wire[0]).Some?
    ensures var next := FrameStep(env, s, wire[0]).value;
      done + wire[..Survived(env, s, wire)] == done + [wire[0]] + wire[1..][..Survived(env, next, wire[1..])]
  {
    assert s.(pending := []) == s;
  }

  lemma {:induction false} TrustedStep(
      env: Environment, s: KrakenState, wire: seq<KrakenFrame>, market: MarketKey)
    requires Dispatches(s) && s.pending == [] && !s.reconnect && wire != [] && FrameStep(env, s, wire[0]).Some?
    ensures TrustedOf(Emissions(env, s, wire), market)
      == TrustedOf(FrameLog(env, s, wire[0]), market)
         + TrustedOf(Emissions(env, FrameStep(env, s, wire[0]).value, wire[1..]), market)
  {
    EmissionsStep(env, s, wire);
    TrustedConcat(FrameLog(env, s, wire[0]), Emissions(env, FrameStep(env, s, wire[0]).value, wire[1..]), market);
  }

  lemma {:induction false} Joined<T>(said: seq<T>, now: seq<T>, later: seq<T>, whole: seq<T>)
    requires said + now + later == whole
    ensures said + (now + later) == whole
  {}

  lemma {:induction false} ReadStep(
      env: Environment, s: KrakenState, catalog: Catalog, done: seq<KrakenFrame>, wire: seq<KrakenFrame>,
      symbol: string)
    requires InRun(env, s, catalog, done, symbol)
    requires s.pending == [] && !s.reconnect && wire != [] && FrameStep(env, s, wire[0]).Some?
    requires FrameStep(env, s, wire[0]).value.byNative == s.byNative
    requires ReadsRun(env, FrameStep(env, s, wire[0]).value, done + [wire[0]], wire[1..], symbol)
    ensures ReadsRun(env, s, done, wire, symbol)
  {
    var next, market := FrameStep(env, s, wire[0]).value, KrakenMarket(s.byNative[symbol]);
    var cfg := AdapterConfigFor(env, s.byNative[symbol], symbol);
    var said, now := EventsOf(cfg, InputsFor(done, symbol)), TrustedOf(FrameLog(env, s, wire[0]), market);
    var later := TrustedOf(Emissions(env, next, wire[1..]), market);
    var whole := EventsOf(cfg, InputsFor(done + wire[..Survived(env, s, wire)], symbol));
    assert EventsOf(cfg, InputsFor(done + [wire[0]], symbol)) == said + now by {
      StepInRun(env, s, catalog, done, wire[0], symbol);
    }
    assert said + now + later == whole by {
      SurvivedStep(env, s, done, wire);
    }
    TrustedStep(env, s, wire, market);
    Joined(said, now, later, whole);
  }

  lemma {:induction false} ReadFrom(
      env: Environment, s: KrakenState, catalog: Catalog, done: seq<KrakenFrame>, wire: seq<KrakenFrame>,
      symbol: string)
    requires InRun(env, s, catalog, done, symbol) && OnlyStatuses(s.pending)
    ensures ReadsRun(env, s, done, wire, symbol)
    decreases |wire|, |s.pending|
  {
    if s.pending != [] {
      ReadFrom(env, s.(pending := s.pending[1..]), catalog, done, wire, symbol);
      ReadPop(env, s, done, wire, symbol);
    } else if s.reconnect || wire == [] || FrameStep(env, s, wire[0]).None? {
      EmissionsEnd(env, s, wire);
      assert s.(pending := []) == s && done + wire[..0] == done;
    } else {
      StepQueuesStatuses(env, s, wire[0]);
      StepInRun(env, s, catalog, done, wire[0], symbol);
      ReadFrom(env, FrameStep(env, s, wire[0]).value, catalog, done + [wire[0]], wire[1..], symbol);
      ReadStep(env, s, catalog, done, wire, symbol);
    }
  }

  lemma {:induction false} ConfigureQueuesStatuses(s: KrakenState, catalog: Catalog, products: seq<Product>)
    requires Dispatches(s) && OnlyStatuses(s.pending) && Configure(s, catalog, products).Some?
    ensures OnlyStatuses(Configure(s, catalog, products).value.pending)
  {
    if products != [] {
      ConfigureQueuesStatuses(s, catalog, products[..|products| - 1]);
    }
  }

  lemma {:induction false} OpenedQueuesStatuses(universe: Universe, catalog: Catalog)
    requires OpenKraken(universe, catalog).Some?
    ensures OnlyStatuses(OpenKraken(universe, catalog).value.pending)
  {
    StatusesOnly(Kraken, universe, {}, Connecting);
    ConfigureQueuesStatuses(Unconfigured(universe), catalog, universe);
  }

  /**
   However the products interleave on the wire, a product's trusted events as read until
   the session fails are exactly what its adapter says to its own inputs among the frames
   that were taken.
   */
  lemma {:induction false} ReadersSeeTheRun(
      env: Environment, universe: Universe, catalog: Catalog, wire: seq<KrakenFrame>, symbol: string)
    requires OpenKraken(universe, catalog).Some? && symbol in OpenKraken(universe, catalog).value.byNative
    ensures var s := OpenKraken(universe, catalog).value;
      var taken := wire[..Survived(env, s, wire)];
      TrustedOf(Emissions(env, s, wire), KrakenMarket(s.byNative[symbol]))
        == EventsOf(AdapterConfigFor(env, s.byNative[symbol], symbol), InputsFor(taken, symbol))
  {
    var s := OpenKraken(universe, catalog).value;
    var taken := wire[..Survived(env, s, wire)];
    ConfiguredOneSymbolEach(Unconfigured(universe), catalog, universe);
    OpenedQueuesStatuses(universe, catalog);
    ReadFrom(env, s, catalog, [], wire, symbol);
    assert [] + taken == taken;
  }

  /** And an invalidation of any product is the last event of the session. */
  lemma {:induction false} InvalidationEndsSession(
      env: Environment, universe: Universe, catalog: Catalog, wire: seq<KrakenFrame>, i: nat)
    requires OpenKraken(universe, catalog).Some?
    requires i < |Emissions(env, OpenKraken(universe, catalog).value, wire)|
    requires IsInvalidation(Emissions(env, OpenKraken(universe, catalog).value, wire)[i])
    ensures i == |Emissions(env, OpenKraken(universe, catalog).value, wire)| - 1
  {
    OpenedQueuesStatuses(universe, catalog);
    InvalidationIsLast(env, OpenKraken(universe, catalog).value, wire, i);
  }

  // ---------- What discovery decides ----------

  function OnlineProducts(catalog: Catalog): set<Product> {
    set p | p in catalog && catalog[p].online
  }

  /** Two online products, or one twice, with the same native symbol. */
  predicate Ambiguous(catalog: Catalog, products: seq<Product>) {
    exists i, j :: 0 <= i < j < |products| && SameSymbol(catalog, products[i], products[j])
  }

  predicate SameSymbol(catalog: Catalog, p: Product, q: Product) {
    && p in OnlineProducts(catalog) && q in OnlineProducts(catalog) && catalog[p].symbol == catalog[q].symbol
  }

  lemma {:induction false} AmbiguousSnoc(catalog: Catalog, front: seq<Product>, p: Product)
    ensures Ambiguous(catalog, front + [p])
      <==> Ambiguous(catalog, front) || exists i :: 0 <= i < |front| && SameSymbol(catalog, front[i], p)
  {
    var all := front + [p];
    if i, j :| 0 <= i < j < |front| && SameSymbol(catalog, front[i], front[j]) {
      assert SameSymbol(catalog, all[i], all[j]);
    }
    if i :| 0 <= i < |front| && SameSymbol(catalog, front[i], p) {
      assert SameSymbol(catalog, all[i], all[|front|]);
    }
  }

  /** The dispatched products, those turned away, and what the reader is told about the latter. */
  ghost predicate Discovered(s: KrakenState, catalog: Catalog, products: seq<Product>) {
    && (forall symbol :: symbol in s.byNative ==>
          s.byNative[symbol] in products && s.byNative[symbol] in OnlineProducts(catalog)
          && catalog[s.byNative[symbol]].symbol == symbol)
    && (forall p :: p in products && p in OnlineProducts(catalog) ==>
          catalog[p].symbol in s.byNative && s.byNative[catalog[p].symbol] == p)
    && (forall p :: p in s.unsupported <==> p in products && p !in OnlineProducts(catalog))
  }

  lemma {:induction false} ConfigureDiscovers(s: KrakenState, catalog: Catalog, products: seq<Product>)
    requires Dispatches(s) && s.byNative == map[] && s.unsupported == {}
    ensures Configure(s, catalog, products).None? <==> Ambiguous(catalog, products)
    ensures Configure(s, catalog, products).Some? ==>
      && Discovered(Configure(s, catalog, products).value, catalog, products)
      && Configure(s, catalog, products).value.pending
         == s.pending + Statuses(Kraken, products, OnlineProducts(catalog), Unsupported)
  {
    if products == [] {
      assert s.pending + [] == s.pending;
    } else {
      var front, p := products[..|products| - 1], products[|products| - 1];
      assert products == front + [p];
      ConfigureDiscovers(s, catalog, front);
      AmbiguousSnoc(catalog, front, p);
      if Configure(s, catalog, front).Some? {
        ProductDiscovered(Configure(s, catalog, front).value, catalog, front, p);
        var told := Statuses(Kraken, front, OnlineProducts(catalog), Unsupported);
        assert s.pending + told + [StatusOf(p, Unsupported)] == s.pending + (told + [StatusOf(p, Unsupported)]);
      }
    }
  }

  lemma {:induction false} ProductDiscovered(mid: KrakenState, catalog: Catalog, front: seq<Product>, p: Product)
    requires Dispatches(mid) && Discovered(mid, catalog, front)
    ensures ConfigureProduct(mid, catalog, p).None?
      <==> exists i :: 0 <= i < |front| && SameSymbol(catalog, front[i], p)
    ensures ConfigureProduct(mid, catalog, p).Some? ==>
      Discovered(ConfigureProduct(mid, catalog, p).value, catalog, front + [p])
  {
    if p in OnlineProducts(catalog) && catalog[p].symbol in mid.byNative {
      var q := mid.byNative[catalog[p].symbol];
      var i :| 0 <= i < |front| && front[i] == q;
      assert SameSymbol(catalog, front[i], p);
    }
    if i :| 0 <= i < |front| && SameSymbol(catalog, front[i], p) {
      assert front[i] in front;
    }
    forall q ensures q in front + [p] <==> q in front || q == p {}
  }

  /**
   A session is opened unless two online products share a native symbol. It dispatches
   exactly the online products, each under its own symbol; it first reports every product
   connecting and then, in order, those it does not dispatch as unsupported.
   */
  lemma {:induction false} OpenedDispatchesOnline(universe: Universe, catalog: Catalog)
    ensures OpenKraken(universe, catalog).None? <==> Ambiguous(catalog, universe)
    ensures OpenKraken(universe, catalog).Some? ==>
      var s := OpenKraken(universe, catalog).value;
      && Discovered(s, catalog, universe)
      && s.pending == Statuses(Kraken, universe, {}, Connecting)
         + Statuses(Kraken, universe, OnlineProducts(catalog), Unsupported)
      && (s.reconnect <==> forall p :: p in universe ==> p !in OnlineProducts(catalog))
  {
    ConfigureDiscovers(Unconfigured(universe), catalog, universe);
    if OpenKraken(universe, catalog).Some? {
      var s := OpenKraken(universe, catalog).value;
      ConfigureKeepsReconnect(Unconfigured(universe), catalog, universe);
      NothingDispatchedIff(s, catalog, universe);
    }
  }

  lemma {:induction false} NothingDispatchedIff(s: KrakenState, catalog: Catalog, products: seq<Product>)
    requires Discovered(s, catalog, products)
    ensures s.byNative == map[] <==> forall p :: p in products ==> p !in OnlineProducts(catalog)
  {
    if p :| p in products && p in OnlineProducts(catalog) {
      assert catalog[p].symbol in s.byNative;
    }
    if s.byNative != map[] {
      var symbol :| symbol in s.byNative;
      assert s.byNative[symbol] in products && s.byNative[symbol] in OnlineProducts(catalog);
    }
  }

  lemma {:induction false} ConfigureKeepsReconnect(s: KrakenState, catalog: Catalog, products: seq<Product>)
    requires Dispatches(s) && Configure(s, catalog, products).Some?
    ensures Configure(s, catalog, products).value.reconnect == s.reconnect
  {
    if products != [] {
      ConfigureKeepsReconnect(s, catalog, products[..|products| - 1]);
    }
  }

  // ---------- The statuses a reader gets ----------

  /** A market's statuses among a session's events. */
  function StatusesOf(log: seq<VenueSessionEvent>, market: MarketKey): seq<VenueMarketStatus> {
    if log == [] then []
    else
      (if log[0].Status? && log[0].key == market then [log[0].status] else []) + StatusesOf(log[1..], market)
  }

  predicate SubscribedIn(frames: seq<KrakenFrame>, symbol: string) {
    frames != [] &&
    (frames[|frames| - 1] == Acknowledgement(symbol, Subscribed) || SubscribedIn(frames[..|frames| - 1], symbol))
  }

  /**
   What the acknowledgements of a symbol say: the first subscription, that the product
   waits for its snapshot unless it has one; every rejection, that it is unsupported.
   */
  function Told(cfg: AdapterConfig, frames: seq<KrakenFrame>, symbol: string): seq<VenueMarketStatus> {
    if frames == [] then []
    else
      var before, f := frames[..|frames| - 1], frames[|frames| - 1];
      Told(cfg, before, symbol)
      + if f == Acknowledgement(symbol, RejectedForGood) then [Unsupported]
        else if f == Acknowledgement(symbol, Subscribed) && !SubscribedIn(before, symbol)
                && Run(cfg, InputsFor(before, symbol)).status != Live then [WaitingForSnapshot]
        else []
  }

  lemma {:induction false} StatusesConcat(a: seq<VenueSessionEvent>, b: seq<VenueSessionEvent>, market: MarketKey)
    ensures StatusesOf(a + b, market) == StatusesOf(a, market) + StatusesOf(b, market)
  {
    if a == [] {
      assert a + b == b;
    } else {
      var head := if a[0].Status? && a[0].key == market then [a[0].status] else [];
      StatusesConcat(a[1..], b, market);
      assert (a + b)[1..] == a[1..] + b && (a + b)[0] == a[0];
      assert head + (StatusesOf(a[1..], market) + StatusesOf(b, market))
        == head + StatusesOf(a[1..], market) + StatusesOf(b, market);
    }
  }

  lemma {:induction false} OneStatus(e: VenueSessionEvent, market: MarketKey)
    ensures StatusesOf([e], market) == if e.Status? && e.key == market then [e.status] else []
  {
    assert [e][1..] == [];
    assert StatusesOf([e], market) == (if e.Status? && e.key == market then [e.status] else []) + [];
  }

  /** The session remembers which symbols were subscribed. */
  predicate Remembers(s: KrakenState, done: seq<KrakenFrame>, symbol: string)
    requires symbol in s.byNative
  {
    s.byNative[symbol] in s.acknowledged <==> SubscribedIn(done, symbol)
  }

  lemma {:induction false} SnocTold(
      cfg: AdapterConfig, done: seq<KrakenFrame>, f: KrakenFrame, symbol: string)
    ensures SubscribedIn(done + [f], symbol) <==>
      f == Acknowledgement(symbol, Subscribed) || SubscribedIn(done, symbol)
    ensures Told(cfg, done + [f], symbol) == Told(cfg, done, symbol)
      + if f == Acknowledgement(symbol, RejectedForGood) then [Unsupported]
        else if f == Acknowledgement(symbol, Subscribed) && !SubscribedIn(done, symbol)
                && Run(cfg, InputsFor(done, symbol)).status != Live then [WaitingForSnapshot]
        else []
  {
    assert (done + [f])[..|done|] == done;
  }

  lemma {:induction false} LogHasNoStatus(env: Environment, s: KrakenState, f: KrakenFrame, market: MarketKey)
    requires Dispatches(s)
    ensures StatusesOf(FrameLog(env, s, f), market) == []
  {
    if FrameEvent(env, s, f).Some? {
      OneStatus(Trusted(FrameEvent(env, s, f).value), market);
    }
  }

  lemma {:induction false} QueueOne(e: VenueSessionEvent, queue: seq<VenueSessionEvent>, market: MarketKey)
    requires queue == [e] || queue == []
    ensures StatusesOf(queue, market) == if queue == [e] && e.Status? && e.key == market then [e.status] else []
  {
    OneStatus(e, market);
  }

  /** What a frame queues for a dispatched product, and whether it counts as subscribed then. */
  lemma {:induction false} FrameQueues(
      env: Environment, s: KrakenState, catalog: Catalog, f: KrakenFrame, symbol: string)
    requires Dispatches(s) && OneSymbolEach(s, catalog) && symbol in s.byNative
    requires s.pending == [] && FrameStep(env, s, f).Some?
    ensures var p, next := s.byNative[symbol], FrameStep(env, s, f).value;
      && next.byNative == s.byNative
      && (p in next.acknowledged <==> p in s.acknowledged || f == Acknowledgement(symbol, Subscribed))
      && StatusesOf(next.pending, KrakenMarket(p))
         == if f == Acknowledgement(symbol, RejectedForGood) then [Unsupported]
            else if f == Acknowledgement(symbol, Subscribed) && p !in s.acknowledged
                    && s.adapters[p].status != Live then [WaitingForSnapshot]
            else []
  {
    var p, next := s.byNative[symbol], FrameStep(env, s, f).value;
    if f.Acknowledgement? {
      var status := if f.answer == RejectedForGood then Unsupported else WaitingForSnapshot;
      QueueOne(StatusOf(s.byNative[f.symbol], status), next.pending, KrakenMarket(p));
    }
  }

  lemma {:induction false} FrameTells(
      env: Environment, s: KrakenState, catalog: Catalog, done: seq<KrakenFrame>, f: KrakenFrame, symbol: string)
    requires InRun(env, s, catalog, done, symbol) && Remembers(s, done, symbol)
    requires s.pending == [] && FrameStep(env, s, f).Some?
    ensures var next := FrameStep(env, s, f).value;
      var market := KrakenMarket(s.byNative[symbol]);
      var cfg := AdapterConfigFor(env, s.byNative[symbol], symbol);
      && next.byNative == s.byNative && Remembers(next, done + [f], symbol)
      && StatusesOf(FrameLog(env, s, f), market) == []
      && Told(cfg, done + [f], symbol) == Told(cfg, done, symbol) + StatusesOf(next.pending, market)
  {
    LogHasNoStatus(env, s, f, KrakenMarket(s.byNative[symbol]));
    SnocTold(AdapterConfigFor(env, s.byNative[symbol], symbol), done, f, symbol);
    FrameQueues(env, s, catalog, f, symbol);
  }

  /** What was said, and what will be read, is what the acknowledgements say, behind `head`. */
  predicate EndsTold(
      env: Environment, s: KrakenState, done: seq<KrakenFrame>, wire: seq<KrakenFrame>, symbol: string,
      head: seq<VenueMarketStatus>, said: seq<VenueMarketStatus>)
    requires Dispatches(s) && symbol in s.byNative
  {
    var cfg := AdapterConfigFor(env, s.byNative[symbol], symbol);
    said + StatusesOf(Emissions(env, s, wire), KrakenMarket(s.byNative[symbol]))
      == head + Told(cfg, done + wire[..Survived(env, s, wire)], symbol)
  }

  lemma {:induction false} PopTells(
      env: Environment, s: KrakenState, done: seq<KrakenFrame>, wire: seq<KrakenFrame>, symbol: string,
      head: seq<VenueMarketStatus>, said: seq<VenueMarketStatus>)
    requires Dispatches(s) && symbol in s.byNative && s.pending != []
    requires EndsTold(
      env, s.(pending := s.pending[1..]), done, wire, symbol, head,
      said + StatusesOf([s.pending[0]], KrakenMarket(s.byNative[symbol])))
    ensures EndsTold(env, s, done, wire, symbol, head, said)
  {
    var e, next, market := s.pending[0], s.(pending := s.pending[1..]), KrakenMarket(s.byNative[symbol]);
    assert Survived(env, s, wire) == Survived(env, next, wire) by {
      assert next.(pending := []) == s.(pending := []);
    }
    assert StatusesOf(Emissions(env, s, wire), market)
      == StatusesOf([e], market) + StatusesOf(Emissions(env, next, wire), market) by {
      EmissionsPop(env, s, wire);
      StatusesConcat([e], Emissions(env, next, wire), market);
    }
    Joined(
      said, StatusesOf([e], market), StatusesOf(Emissions(env, next, wire), market),
      said + StatusesOf([e], market) + StatusesOf(Emissions(env, next, wire), market));
  }

  lemma {:induction false} StepTells(
      env: Environment, s: KrakenState, done: seq<KrakenFrame>, wire: seq<KrakenFrame>, symbol: string,
      head: seq<VenueMarketStatus>, said: seq<VenueMarketStatus>)
    requires Dispatches(s) && symbol in s.byNative
    requires s.pending == [] && !s.reconnect && wire != [] && FrameStep(env, s, wire[0]).Some?
    requires FrameStep(env, s, wire[0]).value.byNative == s.byNative
    requires StatusesOf(FrameLog(env, s, wire[0]), KrakenMarket(s.byNative[symbol])) == []
    requires EndsTold(
      env, FrameStep(env, s, wire[0]).value, done + [wire[0]], wire[1..], symbol, head, said)
    ensures EndsTold(env, s, done, wire, symbol, head, said)
  {
    var next, market := FrameStep(env, s, wire[0]).value, KrakenMarket(s.byNative[symbol]);
    assert StatusesOf(Emissions(env, s, wire), market) == StatusesOf(Emissions(env, next, wire[1..]), market) by {
      EmissionsStep(env, s, wire);
      StatusesConcat(FrameLog(env, s, wire[0]), Emissions(env, next, wire[1..]), market);
    }
    SurvivedStep(env, s, done, wire);
  }

  /** What was said, with what is queued, is what the acknowledgements so far say. */
  predicate SaidUpTo(
      env: Environment, s: KrakenState, done: seq<KrakenFrame>, symbol: string,
      head: seq<VenueMarketStatus>, said: seq<VenueMarketStatus>)
    requires symbol in s.byNative
  {
    said + StatusesOf(s.pending, KrakenMarket(s.byNative[symbol]))
      == head + Told(AdapterConfigFor(env, s.byNative[symbol], symbol), done, symbol)
  }

  lemma {:induction false} PopSaid(
      env: Environment, s: KrakenState, done: seq<KrakenFrame>, symbol: string,
      head: seq<VenueMarketStatus>, said: seq<VenueMarketStatus>)
    requires symbol in s.byNative && s.pending != [] && SaidUpTo(env, s, done, symbol, head, said)
    ensures SaidUpTo(
      env, s.(pending := s.pending[1..]), done, symbol, head,
      said + StatusesOf([s.pending[0]], KrakenMarket(s.byNative[symbol])))
  {
    var market := KrakenMarket(s.byNative[symbol]);
    assert s.pending == [s.pending[0]] + s.pending[1..];
    StatusesConcat([s.pending[0]], s.pending[1..], market);
    Shifted(
      said + StatusesOf([s.pending[0]], market), said, StatusesOf([s.pending[0]], market),
      StatusesOf(s.pending[1..], market));
  }

  lemma {:induction false} StepSaid(
      env: Environment, s: KrakenState, catalog: Catalog, done: seq<KrakenFrame>, f: KrakenFrame, symbol: string,
      head: seq<VenueMarketStatus>, said: seq<VenueMarketStatus>)
    requires InRun(env, s, catalog, done, symbol) && Remembers(s, done, symbol)
    requires s.pending == [] && FrameStep(env, s, f).Some? && SaidUpTo(env, s, done, symbol, head, said)
    ensures FrameStep(env, s, f).value.byNative == s.byNative
    ensures SaidUpTo(env, FrameStep(env, s, f).value, done + [f], symbol, head, said)
  {
    var next, market := FrameStep(env, s, f).value, KrakenMarket(s.byNative[symbol]);
    var cfg := AdapterConfigFor(env, s.byNative[symbol], symbol);
    assert said == head + Told(cfg, done, symbol) by {
      assert said + [] == said;
    }
    FrameTells(env, s, catalog, done, f, symbol);
    Shifted(said, head, Told(cfg, done, symbol), StatusesOf(next.pending, market));
  }

  lemma {:induction false} Shifted<T>(said: seq<T>, head: seq<T>, told: seq<T>, more: seq<T>)
    requires said == head + told
    ensures said + more == head + (told + more)
  {}

  lemma {:induction false} EmissionsTell(
      env: Environment, s: KrakenState, catalog: Catalog, done: seq<KrakenFrame>, wire: seq<KrakenFrame>,
      symbol: string, head: seq<VenueMarketStatus>, said: seq<VenueMarketStatus>)
    requires InRun(env, s, catalog, done, symbol) && Remembers(s, done, symbol)
    requires SaidUpTo(env, s, done, symbol, head, said)
    ensures EndsTold(env, s, done, wire, symbol, head, said)
    decreases |wire|, |s.pending|
  {
    if s.pending != [] {
      var next := s.(pending := s.pending[1..]);
      var told := said + StatusesOf([s.pending[0]], KrakenMarket(s.byNative[symbol]));
      PopSaid(env, s, done, symbol, head, said);
      EmissionsTell(env, next, catalog, done, wire, symbol, head, told);
      PopTells(env, s, done, wire, symbol, head, said);
    } else if s.reconnect || wire == [] || FrameStep(env, s, wire[0]).None? {
      EmissionsEnd(env, s, wire);
      assert s.(pending := []) == s && done + wire[..0] == done;
    } else {
      FrameTells(env, s, catalog, done, wire[0], symbol);
      StepInRun(env, s, catalog, done, wire[0], symbol);
      StepSaid(env, s, catalog, done, wire[0], symbol, head, said);
      EmissionsTell(env, FrameStep(env, s, wire[0]).value, catalog, done + [wire[0]], wire[1..], symbol, head, said);
      StepTells(env, s, done, wire, symbol, head, said);
    }
  }

  /** After the statuses of discovery, a reader gets exactly what the acknowledgements among the frames taken say. */
  lemma {:induction false} ReadersSeeTheStatuses(
      env: Environment, universe: Universe, catalog: Catalog, wire: seq<KrakenFrame>, symbol: string)
    requires OpenKraken(universe, catalog).Some? && symbol in OpenKraken(universe, catalog).value.byNative
    ensures var s := OpenKraken(universe, catalog).value;
      var market, taken := KrakenMarket(s.byNative[symbol]), wire[..Survived(env, s, wire)];
      StatusesOf(Emissions(env, s, wire), market)
        == StatusesOf(s.pending, market)
           + Told(AdapterConfigFor(env, s.byNative[symbol], symbol), taken, symbol)
  {
    var s := OpenKraken(universe, catalog).value;
    var market, taken := KrakenMarket(s.byNative[symbol]), wire[..Survived(env, s, wire)];
    ConfiguredOneSymbolEach(Unconfigured(universe), catalog, universe);
    NothingAcknowledged(Unconfigured(universe), catalog, universe);
    var head := StatusesOf(s.pending, market);
    assert head + [] == head && [] + head == head && [] + taken == taken;
    EmissionsTell(env, s, catalog, [], wire, symbol, head, []);
    assert [] + StatusesOf(Emissions(env, s, wire), market) == StatusesOf(Emissions(env, s, wire), market);
  }

  lemma {:induction false} NothingAcknowledged(s: KrakenState, catalog: Catalog, products: seq<Product>)
    requires Dispatches(s) && s.acknowledged == {} && Configure(s, catalog, products).Some?
    ensures Configure(s, catalog, products).value.acknowledged == {}
  {
    if products != [] {
      NothingAcknowledged(s, catalog, products[..|products| - 1]);
    }
  }

  // ---------- When a connection fails ----------

  /** Frames that may come before the instruments. */
  predicate Preliminary(f: KrakenFrame) {
    f.Quiet? || f == InstrumentAcknowledgement(true)
  }

  /** The instruments are the first frame that is not preliminary, and what follows them is left. */
  lemma {:induction false} DiscoversFirstInstruments(wire: seq<KrakenFrame>, n: nat)
    requires n <= |wire| && (forall i :: 0 <= i < n ==> Preliminary(wire[i])) && (n < |wire| ==> !Preliminary(wire[n]))
    ensures Discover(wire)
      == if n < |wire| && wire[n].Instruments? then Some((wire[n].catalog, wire[n + 1..])) else None
  {
    if n > 0 {
      DiscoversFirstInstruments(wire[1..], n - 1);
    }
  }

  /**
   A frame throws if and only if it is broken, acknowledges a symbol that is not
   dispatched or rejects it for now, or carries a book of a symbol that is not dispatched
   or was rejected.
   */
  lemma {:induction false} FrameThrowsIff(env: Environment, s: KrakenState, f: KrakenFrame)
    requires Dispatches(s)
    ensures FrameStep(env, s, f).None? <==>
      || f.Broken?
      || (f.Acknowledgement? && (f.symbol !in s.byNative || f.answer == RejectedForNow))
      || (f.BookFrame? && (f.symbol !in s.byNative || s.byNative[f.symbol] in s.unsupported))
  {}
}
