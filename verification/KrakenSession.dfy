/**
 One Kraken connection: instrument discovery decides which products it dispatches to
 their book adapters. Wire texts come in as their contents; `Broken` is any that throws
 in either phase, and `Ignorable` any further channel.
 */
module KrakenSessions {
  import opened Wrappers
  import opened VenueEvents
  import opened KrakenOutputs
  import opened KrakenAdapter

  datatype Instrument = Instrument(symbol: string, online: bool)

  type Catalog = map<Product, Instrument>

  datatype Answer = Subscribed | RejectedForGood | RejectedForNow

  datatype KrakenFrame =
    | Broken
    | Quiet
    | Ignorable
    | InstrumentAcknowledgement(success: bool)
    | Instruments(catalog: Catalog)
    | Acknowledgement(symbol: string, answer: Answer)
    | BookFrame(symbol: string, raw: string, parsed: ParsedMessage)

  /** What every adapter of a session shares. */
  datatype Environment = Environment(depth: BookDepth, crc: string -> int, convert: Conversion)

  datatype KrakenState = KrakenState(
    universe: Universe, byNative: map<string, Product>, adapters: map<Product, AdapterState>, unsupported: set<Product>,
    acknowledged: set<Product>, pending: seq<VenueSessionEvent>, reconnect: bool)

  function KrakenMarket(product: Product): MarketKey {
    MarketKey(Kraken, product)
  }

  function StatusOf(product: Product, status: VenueMarketStatus): VenueSessionEvent {
    Status(KrakenMarket(product), status)
  }

  predicate Dispatches(s: KrakenState) {
    forall symbol :: symbol in s.byNative ==> s.byNative[symbol] in s.adapters
  }

  /** A product that is missing or not online is unsupported; an ambiguous native symbol throws. */
  function ConfigureProduct(s: KrakenState, catalog: Catalog, p: Product): (r: Option<KrakenState>)
    requires Dispatches(s)
    ensures r.Some? ==> Dispatches(r.value)
  {
    if p !in catalog || !catalog[p].online then
      Some(s.(unsupported := s.unsupported + {p}, pending := s.pending + [StatusOf(p, Unsupported)]))
    else if catalog[p].symbol in s.byNative then None
    else Some(s.(byNative := s.byNative[catalog[p].symbol := p], adapters := s.adapters[p := INITIAL_ADAPTER]))
  }

  /** `configure`, product by product. */
  function Configure(s: KrakenState, catalog: Catalog, products: seq<Product>): (r: Option<KrakenState>)
    requires Dispatches(s)
    ensures r.Some? ==> Dispatches(r.value)
  {
    if products == [] then Some(s)
    else
      match Configure(s, catalog, products[..|products| - 1])
      case None => None
      case Some(mid) => ConfigureProduct(mid, catalog, products[|products| - 1])
  }

  function Unconfigured(universe: Universe): KrakenState {
    KrakenState(universe, map[], map[], {}, {}, Statuses(Kraken, universe, {}, Connecting), false)
  }

  /** A session over discovered instruments; without any of them it has to reconnect at once. */
  function OpenKraken(universe: Universe, catalog: Catalog): (r: Option<KrakenState>)
    ensures r.Some? ==> Dispatches(r.value)
  {
    match Configure(Unconfigured(universe), catalog, universe)
    case None => None
    case Some(s) => Some(s.(reconnect := s.reconnect || s.byNative == map[]))
  }

  datatype Opened = Opened(session: KrakenState, wire: seq<KrakenFrame>)

  /** The catalog, and the wire behind it; statuses and heartbeats may come first, anything else throws. */
  function Discover(wire: seq<KrakenFrame>): Option<(Catalog, seq<KrakenFrame>)> {
    if wire == [] then None
    else match wire[0]
      case Quiet => Discover(wire[1..])
      case InstrumentAcknowledgement(success) => if success then Discover(wire[1..]) else None
      case Instruments(catalog) => Some((catalog, wire[1..]))
      case _ => None
  }

  /** A session that has discovered and configured its products. */
  function OpenOnWire(universe: Universe, wire: seq<KrakenFrame>): (r: Option<Opened>)
    ensures r.Some? ==> Dispatches(r.value.session)
  {
    match Discover(wire)
    case None => None
    case Some((catalog, rest)) =>
      match OpenKraken(universe, catalog)
      case None => None
      case Some(s) => Some(Opened(s, rest))
  }

  function AcknowledgeSymbol(s: KrakenState, symbol: string, answer: Answer): (r: Option<KrakenState>)
    requires Dispatches(s)
    ensures r.Some? ==> Dispatches(r.value)
  {
    if symbol !in s.byNative then None
    else
      var p := s.byNative[symbol];
      match answer
      case RejectedForNow => None
      case RejectedForGood =>
        Some(s.(
          unsupported := s.unsupported + {p}, adapters := s.adapters[p := INITIAL_ADAPTER],
          pending := s.pending + [StatusOf(p, Unsupported)]))
      case Subscribed =>
        Some(s.(
          acknowledged := s.acknowledged + {p},
          pending := if p !in s.acknowledged && s.adapters[p].status != Live
                     then s.pending + [StatusOf(p, WaitingForSnapshot)] else s.pending))
  }

  function AdapterConfigFor(env: Environment, product: Product, symbol: string): AdapterConfig {
    AdapterConfig(product, symbol, env.depth, env.crc, env.convert)
  }

  datatype Dispatched = Dispatched(session: KrakenState, event: Option<TrustedBookEvent>)

  /** A book message goes to its product's adapter; an invalidation forces a reconnect. */
  function Dispatch(env: Environment, s: KrakenState, symbol: string, raw: string, parsed: ParsedMessage)
    : (r: Option<Dispatched>)
    requires Dispatches(s)
    ensures r.Some? ==> Dispatches(r.value.session)
  {
    if symbol !in s.byNative || s.byNative[symbol] in s.unsupported then None
    else
      var p := s.byNative[symbol];
      var cfg := AdapterConfigFor(env, p, symbol);
      var attempt := Decide(cfg, s.adapters[p], raw, parsed);
      var event := EventFor(cfg, s.adapters[p], attempt);
      Some(Dispatched(
        s.(adapters := s.adapters[p := After(cfg, s.adapters[p], attempt)],
           reconnect := s.reconnect || (event.Some? && event.value.kind.Invalidated?)),
        event))
  }

  datatype KrakenRead = KrakenRead(session: KrakenState, wire: seq<KrakenFrame>, event: Option<VenueSessionEvent>)

  function ReadKraken(env: Environment, s: KrakenState, wire: seq<KrakenFrame>): (r: KrakenRead)
    requires Dispatches(s)
    ensures Dispatches(r.session)
    ensures r.event.Some? ==> |r.wire| < |wire| || (|r.wire| == |wire| && |r.session.pending| < |s.pending|)
    decreases |wire|
  {
    if s.pending != [] then KrakenRead(s.(pending := s.pending[1..]), wire, Some(s.pending[0]))
    else if s.reconnect || wire == [] then KrakenRead(s, wire, None)
    else match wire[0]
      case Broken => KrakenRead(s, wire[1..], None)
      case Acknowledgement(symbol, answer) =>
        (match AcknowledgeSymbol(s, symbol, answer)
         case None => KrakenRead(s, wire[1..], None)
         case Some(next) => ReadKraken(env, next, wire[1..]))
      case BookFrame(symbol, raw, parsed) =>
        (match Dispatch(env, s, symbol, raw, parsed)
         case None => KrakenRead(s, wire[1..], None)
         case Some(d) =>
           if d.event.Some? then KrakenRead(d.session, wire[1..], Some(Trusted(d.event.value)))
           else ReadKraken(env, d.session, wire[1..]))
      case _ => ReadKraken(env, s, wire[1..])
  }

  type Adapters = map<Product, KrakenBookAdapter>

  /** Every native symbol has its product's own adapter, set up for that symbol. */
  ghost predicate OwnAdapters(env: Environment, byNative: map<string, Product>, adapters: Adapters) {
    && (forall symbol :: symbol in byNative ==>
          && byNative[symbol] in adapters
          && adapters[byNative[symbol]].cfg == AdapterConfigFor(env, byNative[symbol], symbol))
    && (forall p, q :: p in adapters && q in adapters && p != q ==> adapters[p] != adapters[q])
  }

  /** Only configured products have an adapter, under their own symbol. */
  ghost predicate OwnSymbols(catalog: Catalog, byNative: map<string, Product>, adapters: Adapters) {
    forall p :: p in adapters ==> p in catalog && catalog[p].symbol in byNative && byNative[catalog[p].symbol] == p
  }

  lemma {:induction false} AddedOwnAdapter(
      env: Environment, byNative: map<string, Product>, adapters: Adapters, p: Product, symbol: string,
      adapter: KrakenBookAdapter)
    requires OwnAdapters(env, byNative, adapters) && p !in adapters && symbol !in byNative
    requires adapter.cfg == AdapterConfigFor(env, p, symbol) && adapter !in adapters.Values
    ensures OwnAdapters(env, byNative[symbol := p], adapters[p := adapter])
  {
    forall q | q in adapters ensures adapters[q] != adapter {
      assert adapters[q] in adapters.Values;
    }
  }

  lemma {:induction false} AddedOwnSymbol(
      catalog: Catalog, byNative: map<string, Product>, adapters: Adapters, p: Product, adapter: KrakenBookAdapter)
    requires OwnSymbols(catalog, byNative, adapters) && p in catalog && catalog[p].symbol !in byNative
    ensures p !in adapters
    ensures OwnSymbols(catalog, byNative[catalog[p].symbol := p], adapters[p := adapter])
  {}

  class KrakenUniverseSession {
    const env: Environment
    const universe: Universe
    var byNative: map<string, Product>
    var adapters: Adapters
    var unsupported: set<Product>
    var acknowledged: set<Product>
    var pending: seq<VenueSessionEvent>
    var reconnectRequired: bool

    constructor (env: Environment, universe: Universe)
      ensures this.env == env && Valid() && adapters == map[] && State() == Unconfigured(universe)
    {
      this.env, this.universe := env, universe;
      byNative, adapters, unsupported, acknowledged := map[], map[], {}, {};
      pending := Statuses(Kraken, universe, {}, Connecting);
      reconnectRequired := false;
    }

    function AdapterStates(): map<Product, AdapterState>
      reads this`adapters, adapters.Values
    {
      map p | p in adapters :: adapters[p].State()
    }

    function State(): KrakenState
      reads this, adapters.Values
    {
      KrakenState(universe, byNative, AdapterStates(), unsupported, acknowledged, pending, reconnectRequired)
    }

    ghost predicate Valid()
      reads this`byNative, this`adapters
    {
      OwnAdapters(env, byNative, adapters)
    }

    ghost predicate AdaptersFrom(catalog: Catalog)
      reads this`byNative, this`adapters
    {
      OwnSymbols(catalog, byNative, adapters)
    }

    method MarkUnsupported(p: Product)
      modifies this`unsupported, this`pending
      ensures var s := old(State());
        State() == s.(unsupported := s.unsupported + {p}, pending := s.pending + [StatusOf(p, Unsupported)])
    {
      unsupported := unsupported + {p};
      pending := pending + [StatusOf(p, Unsupported)];
    }

    method NewAdapter(p: Product, symbol: string) returns (adapter: KrakenBookAdapter)
      modifies this`adapters
      ensures fresh(adapter) && adapter.cfg == AdapterConfigFor(env, p, symbol)
      ensures adapters == old(adapters)[p := adapter]
      ensures AdapterStates() == old(AdapterStates())[p := INITIAL_ADAPTER]
    {
      adapter := new KrakenBookAdapter(AdapterConfigFor(env, p, symbol));
      adapters := adapters[p := adapter];
    }

    /** A new adapter for a product whose native symbol is free. */
    method AddAdapter(p: Product, catalog: Catalog)
      requires Valid() && AdaptersFrom(catalog) && p in catalog && catalog[p].symbol !in byNative
      modifies this`byNative, this`adapters
      ensures Valid() && AdaptersFrom(catalog)
      ensures p in adapters && fresh(adapters[p]) && adapters == old(adapters)[p := adapters[p]]
      ensures var s := old(State());
        State() == s.(byNative := s.byNative[catalog[p].symbol := p], adapters := s.adapters[p := INITIAL_ADAPTER])
    {
      ghost var before := adapters;
      var adapter := NewAdapter(p, catalog[p].symbol);
      AddedOwnSymbol(catalog, byNative, before, p, adapter);
      AddedOwnAdapter(env, byNative, before, p, catalog[p].symbol, adapter);
      byNative := byNative[catalog[p].symbol := p];
    }

    method ConfigureNext(p: Product, catalog: Catalog) returns (ok: bool)
      requires Valid() && AdaptersFrom(catalog)
      modifies this`byNative, this`adapters, this`unsupported, this`pending
      ensures Valid() && AdaptersFrom(catalog)
      ensures forall q :: q in adapters ==>
        fresh(adapters[q]) || (q in old(adapters) && adapters[q] == old(adapters)[q])
      ensures ok == ConfigureProduct(old(State()), catalog, p).Some?
      ensures ok ==> ConfigureProduct(old(State()), catalog, p) == Some(State())
    {
      ok := true;
      if p !in catalog || !catalog[p].online {
        MarkUnsupported(p);
      } else if catalog[p].symbol in byNative {
        ok := false;
      } else {
        AddAdapter(p, catalog);
      }
    }

    /** What discovery hands over once; false is the exception for an ambiguous symbol. */
    method ConfigureFrom(catalog: Catalog) returns (ok: bool)
      requires Valid() && adapters == map[] && State() == Unconfigured(universe)
      modifies this
      ensures Valid() && forall q :: q in adapters ==> fresh(adapters[q])
      ensures ok == OpenKraken(universe, catalog).Some?
      ensures ok ==> OpenKraken(universe, catalog) == Some(State())
    {
      for i := 0 to |universe|
        invariant Valid() && AdaptersFrom(catalog)
        invariant forall q :: q in adapters ==> fresh(adapters[q])
        invariant Configure(Unconfigured(universe), catalog, universe[..i]) == Some(State())
      {
        assert universe[..i + 1][..i] == universe[..i];
        ok := ConfigureNext(universe[i], catalog);
        if !ok {
          ConfigureFails(Unconfigured(universe), catalog, universe, i + 1);
          return;
        }
      }
      assert universe[..|universe|] == universe;
      if byNative == map[] {
        reconnectRequired := true;
      }
      return true;
    }

    /** The discovery loop, then `configure`. */
    method Initialize(wire: seq<KrakenFrame>) returns (ok: bool, rest: seq<KrakenFrame>)
      requires Valid() && adapters == map[] && State() == Unconfigured(universe)
      modifies this
      ensures Valid() && forall q :: q in adapters ==> fresh(adapters[q])
      ensures ok == OpenOnWire(universe, wire).Some?
      ensures ok ==> OpenOnWire(universe, wire) == Some(Opened(State(), rest))
    {
      rest := wire;
      while rest != []
        invariant Discover(rest) == Discover(wire)
        decreases |rest|
      {
        var frame := rest[0];
        rest := rest[1..];
        match frame {
          case Quiet =>
          case InstrumentAcknowledgement(success) =>
            if !success {
              return false, rest;
            }
          case Instruments(catalog) =>
            ok := ConfigureFrom(catalog);
            return;
          case _ =>
            return false, rest;
        }
      }
      return false, rest;
    }

    method ResetAdapter(p: Product)
      requires Valid() && p in adapters
      modifies adapters[p]
      ensures Valid() && AdapterStates() == old(AdapterStates())[p := INITIAL_ADAPTER]
    {
      adapters[p].Reset();
    }

    method Acknowledge(p: Product)
      requires Valid() && p in adapters
      modifies this`acknowledged, this`pending
      ensures var s := old(State());
        State() == s.(
          acknowledged := s.acknowledged + {p},
          pending := if p !in s.acknowledged && s.adapters[p].status != Live
                     then s.pending + [StatusOf(p, WaitingForSnapshot)] else s.pending)
    {
      if p !in acknowledged {
        acknowledged := acknowledged + {p};
        if adapters[p].status != Live {
          pending := pending + [StatusOf(p, WaitingForSnapshot)];
        }
      } else {
        assert acknowledged == acknowledged + {p};
      }
    }

    method Reject(p: Product)
      requires Valid() && p in adapters
      modifies this`unsupported, this`pending, adapters[p]
      ensures Valid()
      ensures var s := old(State());
        State() == s.(
          unsupported := s.unsupported + {p}, adapters := s.adapters[p := INITIAL_ADAPTER],
          pending := s.pending + [StatusOf(p, Unsupported)])
    {
      ResetAdapter(p);
      unsupported := unsupported + {p};
      pending := pending + [StatusOf(p, Unsupported)];
    }

    method ProcessAcknowledgement(symbol: string, answer: Answer) returns (ok: bool)
      requires Valid()
      modifies this`unsupported, this`acknowledged, this`pending, adapters.Values
      ensures Valid() && ok == AcknowledgeSymbol(old(State()), symbol, answer).Some?
      ensures ok ==> AcknowledgeSymbol(old(State()), symbol, answer) == Some(State())
    {
      if symbol !in byNative {
        return false;
      }
      match answer {
        case Subscribed =>
          Acknowledge(byNative[symbol]);
        case RejectedForNow =>
          return false;
        case RejectedForGood =>
          Reject(byNative[symbol]);
      }
      return true;
    }

    /** The adapter of one product gets a message; no other adapter hears of it. */
    method HandToAdapter(p: Product, raw: string, parsed: ParsedMessage) returns (event: Option<TrustedBookEvent>)
      requires Valid() && p in adapters
      modifies adapters[p]
      ensures Valid()
      ensures var cfg, before := adapters[p].cfg, old(adapters[p].State());
        && AdapterStates() == old(AdapterStates())[p := After(cfg, before, Decide(cfg, before, raw, parsed))]
        && event == EventFor(cfg, before, Decide(cfg, before, raw, parsed))
    {
      event := adapters[p].Process(raw, parsed);
    }

    /** A book message for the adapter of its symbol. */
    method DispatchBook(symbol: string, raw: string, parsed: ParsedMessage)
        returns (ok: bool, event: Option<TrustedBookEvent>)
      requires Valid()
      modifies this`reconnectRequired, adapters.Values
      ensures Valid() && ok == Dispatch(env, old(State()), symbol, raw, parsed).Some?
      ensures ok ==> Dispatch(env, old(State()), symbol, raw, parsed) == Some(Dispatched(State(), event))
    {
      if symbol !in byNative || byNative[symbol] in unsupported {
        return false, None;
      }
      event := HandToAdapter(byNative[symbol], raw, parsed);
      if event.Some? && event.value.kind.Invalidated? {
        reconnectRequired := true;
      }
      ok := true;
    }

    method Read(wire: seq<KrakenFrame>) returns (event: Option<VenueSessionEvent>, rest: seq<KrakenFrame>)
      requires Valid()
      modifies this, adapters.Values
      ensures Valid() && adapters == old(adapters)
      ensures var r := ReadKraken(env, old(State()), wire);
        event == r.event && rest == r.wire && (event.Some? ==> State() == r.session)
    {
      rest := wire;
      while true
        invariant Valid() && adapters == old(adapters)
        invariant ReadKraken(env, State(), rest) == ReadKraken(env, old(State()), wire)
        decreases |rest|
      {
        if pending != [] {
          event := Some(pending[0]);
          pending := pending[1..];
          return;
        }
        if reconnectRequired || rest == [] {
          return None, rest;
        }
        var frame := rest[0];
        rest := rest[1..];
        match frame {
          case Broken =>
            return None, rest;
          case Acknowledgement(symbol, answer) =>
            var ok := ProcessAcknowledgement(symbol, answer);
            if !ok {
              return None, rest;
            }
          case BookFrame(symbol, raw, parsed) =>
            var ok, trusted := DispatchBook(symbol, raw, parsed);
            if !ok {
              return None, rest;
            }
            if trusted.Some? {
              return Some(Trusted(trusted.value)), rest;
            }
          case _ =>
        }
      }
    }
  }

  lemma {:induction false} ConfigureFails(s: KrakenState, catalog: Catalog, products: seq<Product>, n: nat)
    requires Dispatches(s) && n <= |products| && Configure(s, catalog, products[..n]) == None
    ensures Configure(s, catalog, products) == None
    decreases |products|
  {
    if n < |products| {
      assert products[..|products| - 1][..n] == products[..n];
      ConfigureFails(s, catalog, products[..|products| - 1], n);
    } else {
      assert products[..n] == products;
    }
  }

  // ---------- Each market is its own adapter's run ----------

  function FrameStep(env: Environment, s: KrakenState, f: KrakenFrame): (r: Option<KrakenState>)
    requires Dispatches(s)
    ensures r.Some? ==> Dispatches(r.value)
  {
    match f
    case Broken => None
    case Acknowledgement(symbol, answer) => AcknowledgeSymbol(s, symbol, answer)
    case BookFrame(symbol, raw, parsed) =>
      (match Dispatch(env, s, symbol, raw, parsed)
       case None => None
       case Some(d) => Some(d.session))
    case _ => Some(s)
  }

  /** The session after a list of frames, none of which threw. */
  function FramesConsumed(env: Environment, s: KrakenState, frames: seq<KrakenFrame>): (r: Option<KrakenState>)
    requires Dispatches(s)
    ensures r.Some? ==> Dispatches(r.value)
  {
    if frames == [] then Some(s)
    else
      match FramesConsumed(env, s, frames[..|frames| - 1])
      case None => None
      case Some(mid) => FrameStep(env, mid, frames[|frames| - 1])
  }

  /** What the frames mean to the adapter of one native symbol. */
  function InputsFor(frames: seq<KrakenFrame>, symbol: string): seq<Input> {
    if frames == [] then []
    else
      var before, f := InputsFor(frames[..|frames| - 1], symbol), frames[|frames| - 1];
      if f.BookFrame? && f.symbol == symbol then before + [Message(f.raw, f.parsed)]
      else if f.Acknowledgement? && f.symbol == symbol && f.answer == RejectedForGood then before + [ResetCall]
      else before
  }

  /** No two native symbols dispatch to one product, and untouched adapters are initial. */
  predicate OneSymbolEach(s: KrakenState, catalog: Catalog) {
    forall symbol :: symbol in s.byNative ==>
      && s.byNative[symbol] in catalog && catalog[s.byNative[symbol]].symbol == symbol
      && s.byNative[symbol] in s.adapters
  }

  lemma {:induction false} ConfiguredOneSymbolEach(s: KrakenState, catalog: Catalog, products: seq<Product>)
    requires Dispatches(s) && s.byNative == map[] && Configure(s, catalog, products).Some?
    ensures var r := Configure(s, catalog, products).value;
      && OneSymbolEach(r, catalog)
      && forall symbol :: symbol in r.byNative ==> r.adapters[r.byNative[symbol]] == INITIAL_ADAPTER
  {
    if products != [] {
      ConfiguredOneSymbolEach(s, catalog, products[..|products| - 1]);
    }
  }

  lemma {:induction false} FrameStepKeepsSymbols(
      env: Environment, s: KrakenState, catalog: Catalog, f: KrakenFrame, symbol: string)
    requires Dispatches(s) && OneSymbolEach(s, catalog) && symbol in s.byNative && FrameStep(env, s, f).Some?
    ensures var next := FrameStep(env, s, f).value;
      var p := s.byNative[symbol];
      var cfg := AdapterConfigFor(env, p, symbol);
      && next.byNative == s.byNative && OneSymbolEach(next, catalog)
      && next.adapters[p] ==
           if f.BookFrame? && f.symbol == symbol then Step(cfg, s.adapters[p], Message(f.raw, f.parsed))
           else if f.Acknowledgement? && f.symbol == symbol && f.answer == RejectedForGood then INITIAL_ADAPTER
           else s.adapters[p]
  {}

  lemma {:induction false} RunSnoc(cfg: AdapterConfig, inputs: seq<Input>, input: Input)
    ensures Run(cfg, inputs + [input]) == Step(cfg, Run(cfg, inputs), input)
  {
    assert (inputs + [input])[..|inputs|] == inputs;
  }

  /** However the markets interleave on the wire, each adapter's state is its own run over its own messages. */
  lemma {:induction false} AdaptersRunIndependently(
      env: Environment, universe: Universe, catalog: Catalog, frames: seq<KrakenFrame>, symbol: string)
    requires OpenKraken(universe, catalog).Some? && symbol in OpenKraken(universe, catalog).value.byNative
    requires FramesConsumed(env, OpenKraken(universe, catalog).value, frames).Some?
    ensures var s0 := OpenKraken(universe, catalog).value;
      var s := FramesConsumed(env, s0, frames).value;
      var p := s0.byNative[symbol];
      && s.byNative == s0.byNative && OneSymbolEach(s, catalog)
      && s.adapters[p] == Run(AdapterConfigFor(env, p, symbol), InputsFor(frames, symbol))
  {
    var s0 := OpenKraken(universe, catalog).value;
    ConfiguredOneSymbolEach(Unconfigured(universe), catalog, universe);
    if frames != [] {
      var front, f := frames[..|frames| - 1], frames[|frames| - 1];
      AdaptersRunIndependently(env, universe, catalog, front, symbol);
      var mid := FramesConsumed(env, s0, front).value;
      FrameStepKeepsSymbols(env, mid, catalog, f, symbol);
      var cfg := AdapterConfigFor(env, s0.byNative[symbol], symbol);
      if f.BookFrame? && f.symbol == symbol {
        RunSnoc(cfg, InputsFor(front, symbol), Message(f.raw, f.parsed));
      } else if f.Acknowledgement? && f.symbol == symbol && f.answer == RejectedForGood {
        RunSnoc(cfg, InputsFor(front, symbol), ResetCall);
      }
    }
  }
}
