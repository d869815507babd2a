/**
 The whole live system: one market service, one engine per product session, the hub
 and any number of browsers, with every locked method and every socket read as one step.
 */
module LiveReplication {
  import opened Wrappers
  import opened VenueEvents
  import opened Truncation
  import opened HeatmapHistories
  import opened LiveHeatmapEngines
  import opened ColumnMirrors
  import opened LiveStreams
  import opened BrowserClients
  import opened ClientViews

  // ---------- One browser's connection ----------

  /** Messages wait in the hub's queue, then travel on the socket; `carried` is data kept from an earlier connection. */
  datatype Connection = Connection(
    wire: seq<Message>, queue: seq<Message>, client: ClientState, error: Option<ClientError>,
    carried: Option<ClientData>)

  function Drained(conn: Connection): Handled {
    Drain(conn.client, conn.wire + conn.queue)
  }

  function Base(hello: HelloMessage): ClientData {
    ClientData(
      hello.product, StreamConfig(hello.priceBinSize, hello.priceBinCount, hello.maxColumns), [], 0.0, None)
  }

  /** The metadata fits the stored columns. */
  predicate Presents(hello: HelloMessage, columns: seq<StoredColumn>, position: nat) {
    && hello.priceBinSize > 0.0 && hello.priceBinCount > 0 && hello.maxColumns > 0
    && columns != [] && |columns| <= hello.maxColumns
    && Fits(Base(hello), AsUpdates(columns))
    && NextAfter(hello.firstIndex, AsUpdates(columns)) == Some(position)
    && UpdatesPeak(hello.peak, AsUpdates(columns)) == hello.peak
  }

  predicate HubValid(h: HubState) {
    && h.state == Some(StateOf(h))
    && (if h.ready then h.hello.Some? && Presents(h.hello.value, h.columns, h.position)
        else h.columns == [] && h.position == 0)
  }

  predicate ShowsStatus(c: ClientState, h: HubState) {
    && c.speed == 1 && c.status == Shown(StatusShown(h.source, h.book))
    && c.source == Some(h.source) && c.book == Some(h.book) && c.detail == h.detail && c.retry == h.retry
  }

  /** The browser holds the hub's product, metadata, columns, indices, peak, position and status. */
  predicate ShowsHub(c: ClientState, h: HubState) {
    && h.hello.Some?
    && Shows(c, Base(h.hello.value), h.columns, h.position, h.hello.value.peak)
    && c.position == h.position && ShowsStatus(c, h)
  }

  predicate InStep(conn: Connection, h: HubState) {
    && conn.error == None && Drained(conn).error == None
    && (if h.ready then ShowsHub(Drained(conn).client, h) else Drained(conn).client.data == conn.carried)
  }

  // ---------- What each kind of delivery does ----------

  lemma {:induction false} StateShown(c: ClientState, h: HubState)
    ensures var d := Drain(c, [State(StateOf(h))]);
      && d.error == None && ShowsStatus(d.client, h) && d.client.position == h.position && d.client.mode.LiveMode?
      && d.client.data == c.data && d.client.nextIndex == c.nextIndex
  {
    DrainOne(c, State(StateOf(h)));
  }

  lemma {:induction false} ErrorsShown(c: ClientState, h: HubState)
    ensures Drain(c, ErrorMessages(h)) == Fine(c)
  {
    if h.error.Some? {
      DrainOne(c, Error(h.error.value));
    }
  }

  lemma {:induction false} MirrorAsUpdates(columns: seq<StoredColumn>)
    ensures Mirror([], AsUpdates(columns)) == Mirrored(columns, true)
  {
    if columns != [] {
      var front, c := columns[..|columns| - 1], columns[|columns| - 1];
      MirrorAsUpdates(front);
      assert AsUpdates(columns)[..|columns| - 1] == AsUpdates(front);
      assert columns == front + [c];
    }
  }

  /** Whatever a browser held before, a snapshot makes it show the hub. */
  lemma {:induction false} SnapshotShown(c: ClientState, h: HubState)
    requires HubValid(h) && h.ready
    ensures Drain(c, SnapshotMessages(h)).error == None && ShowsHub(Drain(c, SnapshotMessages(h)).client, h)
  {
    var hello := h.hello.value;
    var updates := UpdateMessages(AsUpdates(h.columns));
    DrainOne(c, Hello(hello));
    var c1 := Drain(c, [Hello(hello)]).client;
    MirrorAsUpdates(h.columns);
    assert Values([]) == [];
    UpdatesShown(c1, Base(hello), [], hello.firstIndex, hello.peak, AsUpdates(h.columns));
    var c2 := Drain(c1, updates).client;
    StateShown(c2, h);
    var c3 := Drain(c2, [State(StateOf(h))]).client;
    ErrorsShown(c3, h);
    DrainConcat(c, [Hello(hello)], updates);
    DrainConcat(c, [Hello(hello)] + updates, [State(StateOf(h))]);
    DrainConcat(c, [Hello(hello)] + updates + [State(StateOf(h))], ErrorMessages(h));
  }

  lemma {:induction false} AppendedDrain(conn: Connection, more: seq<Message>)
    requires Drained(conn).error == None
    ensures Drained(conn.(queue := conn.queue + more)) == Drain(Drained(conn).client, more)
  {
    DrainConcat(conn.client, conn.wire + conn.queue, more);
    assert conn.wire + (conn.queue + more) == conn.wire + conn.queue + more;
  }

  lemma {:induction false} ReplacedDrain(conn: Connection, all: seq<Message>)
    requires Drained(conn).error == None
    ensures Drain(conn.client, conn.wire).error == None
    ensures Drained(conn.(queue := all)) == Drain(Drain(conn.client, conn.wire).client, all)
  {
    DrainConcat(conn.client, conn.wire, conn.queue);
    DrainConcat(conn.client, conn.wire, all);
  }

  /** A source status or an error message changes neither columns nor position. */
  lemma {:induction false} StatusKeepsInStep(conn: Connection, h: HubState, next: HubState)
    requires InStep(conn, h)
    requires next.ready == h.ready && next.columns == h.columns && next.hello == h.hello && next.position == h.position
    ensures InStep(conn.(queue := conn.queue + [State(StateOf(next))]), next)
  {
    AppendedDrain(conn, [State(StateOf(next))]);
    StateShown(Drained(conn).client, next);
  }

  lemma {:induction false} ErrorKeepsInStep(conn: Connection, h: HubState, text: string)
    requires InStep(conn, h)
    ensures InStep(conn.(queue := conn.queue + [Error(text)]), h.(error := Some(text)))
    ensures InStep(conn.(wire := conn.wire + [Error(text)]), h)
  {
    AppendedDrain(conn, [Error(text)]);
    DrainOne(Drained(conn).client, Error(text));
    DrainConcat(conn.client, conn.wire, conn.queue);
    DrainSnoc(conn.client, conn.wire, Error(text));
    DrainConcat(conn.client, conn.wire + [Error(text)], conn.queue);
  }

  lemma {:induction false} SnapshotKeepsInStep(conn: Connection, h: HubState, next: HubState)
    requires InStep(conn, h) && HubValid(next) && next.ready
    ensures InStep(conn.(queue := SnapshotMessages(next)), next)
  {
    ReplacedDrain(conn, SnapshotMessages(next));
    SnapshotShown(Drain(conn.client, conn.wire).client, next);
  }

  lemma {:induction false} SwitchKeepsInStep(conn: Connection, h: HubState, product: Product)
    requires InStep(conn, h)
    ensures InStep(
      conn.(queue := Deliver(conn.queue, BeginSession(h, product).delivery), carried := None),
      BeginSession(h, product).hub)
  {
    var reset := [Reset(product), State(FirstState(product))];
    var c := Drain(conn.client, conn.wire).client;
    ReplacedDrain(conn, reset);
    DrainOne(c, Reset(product));
    DrainSnoc(c, [Reset(product)], State(FirstState(product)));
    assert [Reset(product)] + [State(FirstState(product))] == reset;
  }

  lemma {:induction false} WelcomeInStep(c: ClientState, h: HubState)
    requires HubValid(h)
    ensures InStep(Connection([], WelcomeMessages(h), c, None, c.data), h)
  {
    assert [] + WelcomeMessages(h) == WelcomeMessages(h);
    if h.ready {
      SnapshotShown(c, h);
    } else {
      StateShown(c, h);
      ErrorsShown(Drain(c, [State(StateOf(h))]).client, h);
      DrainConcat(c, [State(StateOf(h))], ErrorMessages(h));
    }
  }

  lemma {:induction false} SendKeepsInStep(conn: Connection, h: HubState)
    requires InStep(conn, h) && conn.queue != []
    ensures InStep(conn.(wire := conn.wire + [conn.queue[0]], queue := conn.queue[1..]), h)
  {
    assert conn.wire + [conn.queue[0]] + conn.queue[1..] == conn.wire + conn.queue;
  }

  /** The browser never refuses the next message, and stays in step by handling it. */
  lemma {:induction false} ReceiveKeepsInStep(conn: Connection, h: HubState)
    requires InStep(conn, h) && conn.wire != []
    ensures var handled := Handle(conn.client, Encode(conn.wire[0]));
      && handled.error == None
      && InStep(conn.(wire := conn.wire[1..], client := handled.client), h)
  {
    var rest := conn.wire[1..] + conn.queue;
    assert conn.wire + conn.queue == [conn.wire[0]] + rest;
    DrainConcat(conn.client, [conn.wire[0]], rest);
    DrainOne(conn.client, conn.wire[0]);
  }

  // ---------- The engine and the hub ----------

  /** A runner owns its engine for one session; `pending` is a result not yet published. */
  datatype Runner = Runner(session: nat, cfg: EngineConfig, engine: EngineState, pending: Option<EngineResult>)
  {
    function Unpublished(): EngineResult {
      if pending.Some? then pending.value else NOTHING
    }
  }

  predicate HelloMatches(hello: HelloMessage, cfg: EngineConfig, e: EngineState) {
    && hello.product == cfg.product && hello.timeBucket == cfg.heatmap.timeBucket
    && hello.priceBinCount == cfg.heatmap.priceBinCount && hello.maxColumns == cfg.heatmap.maxColumns
    && e.history.resolved == Some(hello.priceBinSize)
  }

  /** The hub is one unpublished result behind the engine, and that result is exactly the difference. */
  predicate Tracks(h: HubState, r: Runner) {
    var updates := r.Unpublished().columns;
    var max := r.cfg.heatmap.maxColumns;
    && Emitting(r.cfg, r.engine)
    && h.session == r.session && h.product == Some(r.cfg.product) && |h.columns| <= max
    && Mirror(h.columns, updates).matched
    && KeepLast(Mirror(h.columns, updates).columns, max) == Indexed(r.engine.history.columns, r.engine.nextIndex)
    && FullWidthUpdates(r.cfg.heatmap, updates)
    && r.engine.status == (if r.Unpublished().statusChange.Some? then r.Unpublished().statusChange.value else h.book)
    && (h.ready ==>
          && h.hello.Some? && HelloMatches(h.hello.value, r.cfg, r.engine) && r.engine.history.columns != []
          && NextAfter(h.position, updates) == Some(r.engine.nextIndex)
          && UpdatesPeak(h.hello.value.peak, updates) == r.engine.peak)
  }

  lemma {:induction false} MirrorNothing(columns: seq<StoredColumn>, next: nat, peak: real)
    ensures Mirror(columns, []) == Mirrored(columns, true) && NextAfter(next, []) == Some(next)
    ensures UpdatesPeak(peak, []) == peak
  {}

  /** One engine call turns agreement into agreement up to what the call reported. */
  lemma {:induction false} ProcessTracks(h: HubState, r: Runner, call: EngineCall)
    requires Tracks(h, r) && r.pending.None?
    ensures var p := EngineStep(r.cfg, r.engine, call);
      Tracks(h, r.(engine := p.state, pending := Some(Reported(p.result))))
  {
    EngineReportsItsWindow(r.cfg, r.engine, call);
    MirrorNothing(h.columns, h.position, if h.hello.Some? then h.hello.value.peak else 0.0);
    assert h.columns == Indexed(r.engine.history.columns, r.engine.nextIndex);
  }

  lemma {:induction false} AsUpdatesIndexed(columns: Columns, next: nat)
    requires |columns| <= next
    ensures AsUpdates(Indexed(columns, next)) == Numbered(columns, next - |columns|)
    ensures columns != [] ==> Position(Indexed(columns, next)) == next
    ensures columns != [] ==> Indexed(columns, next)[0].index == next - |columns|
  {
    if columns != [] {
      var front := columns[..|columns| - 1];
      AsUpdatesIndexed(front, next - 1);
      assert Indexed(columns, next)[..|columns| - 1] == Indexed(front, next - 1);
    }
  }

  lemma {:induction false} FitsFullWidth(base: ClientData, cfg: HeatmapConfig, updates: seq<ColumnUpdate>)
    requires base.config.priceBinCount == cfg.priceBinCount && FullWidthUpdates(cfg, updates)
    ensures Fits(base, updates)
  {
    forall i | 0 <= i < |updates|
      ensures |updates[i].column.bids| == base.config.priceBinCount
      ensures |updates[i].column.asks| == base.config.priceBinCount
    {
      assert FullWidthColumn(cfg, updates[i].column);
    }
  }

  /** The metadata the hub takes from an engine presents that engine's window. */
  lemma {:induction false} MetadataPresents(cfg: EngineConfig, e: EngineState, hello: HelloMessage)
    requires Emitting(cfg, e) && e.history.columns != [] && HelloMatches(hello, cfg, e)
    requires hello.firstIndex == e.nextIndex - |e.history.columns| && hello.peak == e.peak
    ensures Presents(hello, Indexed(e.history.columns, e.nextIndex), e.nextIndex)
  {
    var columns := e.history.columns;
    var first := e.nextIndex - |columns|;
    AsUpdatesIndexed(columns, e.nextIndex);
    NumberedFullWidth(cfg.heatmap, columns, first);
    FitsFullWidth(Base(hello), cfg.heatmap, Numbered(columns, first));
    NumberedContinues(columns, first);
    NumberedPeak(e.peak, columns, first);
  }

  /** The hub after it has taken over an engine's window. */
  function Caught(h: HubState, r: Runner): HubState
    requires Emitting(r.cfg, r.engine)
  {
    var absorbed := h.(
      columns := Indexed(r.engine.history.columns, r.engine.nextIndex), maxColumns := r.cfg.heatmap.maxColumns);
    Updated(absorbed, r.engine, HelloFor(absorbed, r.cfg, r.engine))
  }

  lemma {:induction false} CaughtIsValid(h: HubState, r: Runner)
    requires HubValid(h) && Tracks(h, r)
    ensures HubValid(Caught(h, r))
    ensures Caught(h, r).ready <==> r.engine.history.columns != []
  {
    var columns := r.engine.history.columns;
    AsUpdatesIndexed(columns, r.engine.nextIndex);
    if columns != [] {
      MetadataPresents(r.cfg, r.engine, Caught(h, r).hello.value);
    } else {
      assert !h.ready;
    }
  }

  lemma {:induction false} CaughtTracks(h: HubState, r: Runner)
    requires HubValid(h) && Tracks(h, r)
    ensures Tracks(Caught(h, r), r.(pending := None))
  {
    var next := Caught(h, r);
    AsUpdatesIndexed(r.engine.history.columns, r.engine.nextIndex);
    MirrorNothing(next.columns, next.position, r.engine.peak);
  }

  /** Publishing never fails, and leaves hub and engine in agreement. */
  lemma {:induction false} PublishTracks(h: HubState, r: Runner)
    requires HubValid(h) && Tracks(h, r)
    ensures var p := PublishResult(h, r.cfg, r.engine, r.Unpublished());
      && p.Success? && HubValid(p.value.hub) && Tracks(p.value.hub, r.(pending := None))
      && (r.Unpublished() != NOTHING ==> p.value.hub == Caught(h, r))
  {
    var result := r.Unpublished();
    if result.statusChange.None? && result.columns == [] {
      assert result == NOTHING;
    } else {
      assert Mirror(h.columns, result.columns).matched;
      CaughtIsValid(h, r);
      CaughtTracks(h, r);
    }
  }

  /** The enqueued status and updates move a browser from the hub's old contents to its new ones. */
  lemma {:induction false} UpdatesShowHub(c: ClientState, h: HubState, next: HubState, r: Runner)
    requires HubValid(h) && Tracks(h, r) && h.ready && ShowsHub(c, h)
    requires HubValid(next) && Tracks(next, r.(pending := None)) && next.ready
    requires next.source == h.source && next.detail == h.detail && next.retry == h.retry
    requires r.Unpublished() != NOTHING
    ensures var d := Drain(c, DeliveryFor(next, false, r.Unpublished()).added);
      d.error == None && ShowsHub(d.client, next)
  {
    var result := r.Unpublished();
    var states := if result.statusChange.Some? then [State(StateOf(next))] else [];
    var base := Base(h.hello.value);
    assert base == Base(next.hello.value);
    StateShown(c, next);
    var c1 := Drain(c, states).client;
    assert Shows(c1, base, h.columns, h.position, h.hello.value.peak);
    assert ShowsStatus(c1, next);
    FitsFullWidth(base, r.cfg.heatmap, result.columns);
    UpdatesShown(c1, base, h.columns, h.position, h.hello.value.peak, result.columns);
    DrainConcat(c, states, UpdateMessages(result.columns));
    var d := Drain(c1, UpdateMessages(result.columns)).client;
    var max := r.cfg.heatmap.maxColumns;
    MirrorNothing(next.columns, next.position, next.hello.value.peak);
    assert next.columns == KeepLast(Mirror(h.columns, result.columns).columns, max);
    ValuesKeepLast(Mirror(h.columns, result.columns).columns, max);
    KeepLastShort(Values(Mirror(h.columns, result.columns).columns), max);
  }

  lemma {:induction false} PublishKeepsInStep(conn: Connection, h: HubState, r: Runner)
    requires HubValid(h) && Tracks(h, r) && InStep(conn, h)
    ensures var p := PublishResult(h, r.cfg, r.engine, r.Unpublished());
      p.Success? && InStep(conn.(queue := Deliver(conn.queue, p.value.delivery)), p.value.hub)
  {
    PublishTracks(h, r);
    var result := r.Unpublished();
    var p := PublishResult(h, r.cfg, r.engine, result).value;
    if result == NOTHING {
      assert conn.queue + [] == conn.queue;
    } else if p.delivery.Replace? {
      SnapshotKeepsInStep(conn, h, p.hub);
    } else if !p.hub.ready {
      assert conn.queue + [] == conn.queue;
    } else {
      UpdatesShowHub(Drained(conn).client, h, p.hub, r);
      AppendedDrain(conn, p.delivery.added);
    }
  }

  // ---------- The system ----------

  datatype System = System(
    heatmap: HeatmapConfig, hub: HubState, selected: Product, session: nat, runner: Option<Runner>, lastStarted: nat,
    connections: seq<Connection>, failed: bool)

  datatype Action =
    | SwitchProduct(product: Product)
    | StartRunner
    | FinishRunner
    | Process(call: EngineCall)
    | PublishPending
    | PublishStatus(source: SourceStatus, detail: string, retry: nat)
    | PublishFailureText(text: string)
    | Subscribe(client: ClientState)
    | Send(i: nat)
    | Receive(i: nat)
    | RejectControl(i: nat, text: string)

  /** The service's constructor opens the first session. */
  function InitialSystem(heatmap: HeatmapConfig, product: Product): System {
    System(heatmap, BeginSession(FRESH_HUB, product).hub, product, 1, None, 0, [], false)
  }

  function DeliverAll(connections: seq<Connection>, d: Delivery): seq<Connection> {
    seq(|connections|, i requires 0 <= i < |connections| =>
      connections[i].(queue := Deliver(connections[i].queue, d)))
  }

  function ForgetAll(connections: seq<Connection>): seq<Connection> {
    seq(|connections|, i requires 0 <= i < |connections| => connections[i].(carried := None))
  }

  function Announce(s: System, a: Announced): System {
    s.(hub := a.hub, connections := DeliverAll(s.connections, a.delivery))
  }

  /** A switch to the selected product changes nothing; any other opens the next session. */
  function Switch(s: System, product: Product): System {
    if product == s.selected then s
    else
      var a := BeginSession(s.hub, product);
      s.(hub := a.hub, selected := product, session := a.hub.session,
         connections := ForgetAll(DeliverAll(s.connections, a.delivery)))
  }

  /** The service starts one runner for a session it has not run yet, and only after the previous one returned. */
  function Start(s: System): System {
    if s.runner.Some? || s.session == s.lastStarted then s
    else
      var cfg := EngineConfig(s.selected, s.heatmap);
      s.(runner := Some(Runner(s.session, cfg, InitialEngine(cfg), None)), lastStarted := s.session)
  }

  function ProcessCall(s: System, call: EngineCall): System
    requires s.runner.Some? ==> Emitting(s.runner.value.cfg, s.runner.value.engine)
  {
    match s.runner
    case None => s
    case Some(r) =>
      if r.pending.Some? then s
      else
        var p := EngineStep(r.cfg, r.engine, call);
        s.(runner := Some(r.(
          engine := p.state, pending := if p.result.Success? then Some(p.result.value) else None)))
  }

  function PublishNow(s: System): System {
    match s.runner
    case None => s
    case Some(r) =>
      if r.pending.None? then s
      else
        match PublishFrom(s.hub, r.session, r.cfg, r.engine, r.pending.value)
        case Failure(_) => s.(failed := true)
        case Success(a) => Announce(s, a).(runner := Some(r.(pending := None)))
  }

  function OnConnection(s: System, i: nat, conn: Connection): System
    requires i < |s.connections|
  {
    s.(connections := s.connections[i := conn])
  }

  function SendNext(s: System, i: nat): System {
    if i >= |s.connections| || s.connections[i].queue == [] then s
    else
      var conn := s.connections[i];
      OnConnection(s, i, conn.(wire := conn.wire + [conn.queue[0]], queue := conn.queue[1..]))
  }

  function ReceiveNext(s: System, i: nat): System {
    if i >= |s.connections| || s.connections[i].wire == [] || s.connections[i].error.Some? then s
    else
      var conn := s.connections[i];
      var h := Handle(conn.client, Encode(conn.wire[0]));
      OnConnection(s, i, conn.(wire := conn.wire[1..], client := h.client, error := h.error))
  }

  function Act(s: System, a: Action): System
    requires s.runner.Some? ==> Emitting(s.runner.value.cfg, s.runner.value.engine)
  {
    match a
    case SwitchProduct(product) => Switch(s, product)
    case StartRunner => Start(s)
    case FinishRunner => s.(runner := None)
    case Process(call) => ProcessCall(s, call)
    case PublishPending => PublishNow(s)
    case PublishStatus(source, detail, retry) =>
      if s.runner.None? then s
      else Announce(s, PublishSourceStatus(s.hub, s.runner.value.session, source, detail, retry))
    case PublishFailureText(text) =>
      if s.runner.None? then s else Announce(s, PublishError(s.hub, s.runner.value.session, text))
    case Subscribe(client) =>
      s.(connections := s.connections + [Connection([], WelcomeMessages(s.hub), client, None, client.data)])
    case Send(i) => SendNext(s, i)
    case Receive(i) => ReceiveNext(s, i)
    case RejectControl(i, text) =>
      if i >= |s.connections| then s
      else OnConnection(s, i, s.connections[i].(wire := s.connections[i].wire + [Error(text)]))
  }

  // ---------- The invariant ----------

  predicate AllInStep(connections: seq<Connection>, h: HubState) {
    forall i :: 0 <= i < |connections| ==> InStep(connections[i], h)
  }

  /** Sessions only grow; the runner belongs to the last started one, and a session without a runner yet is empty. */
  predicate ServiceValid(s: System) {
    && s.heatmap.Valid() && HubValid(s.hub) && !s.failed
    && 1 <= s.session == s.hub.session && s.hub.product == Some(s.selected)
    && s.lastStarted <= s.session
    && (s.lastStarted < s.session ==> s.hub.columns == [] && !s.hub.ready && s.hub.book == AwaitingSnapshot)
    && (s.runner.Some? ==>
          && s.runner.value.session == s.lastStarted >= 1
          && Emitting(s.runner.value.cfg, s.runner.value.engine)
          && (s.lastStarted == s.session ==> Tracks(s.hub, s.runner.value)))
  }

  predicate SystemValid(s: System) {
    ServiceValid(s) && AllInStep(s.connections, s.hub)
  }

  lemma {:induction false} InitiallyValid(heatmap: HeatmapConfig, product: Product)
    requires heatmap.Valid()
    ensures SystemValid(InitialSystem(heatmap, product))
  {}

  lemma {:induction false} SwitchKeepsValid(s: System, product: Product)
    requires SystemValid(s)
    ensures SystemValid(Switch(s, product))
  {
    if product != s.selected {
      var next := Switch(s, product);
      forall i | 0 <= i < |next.connections| ensures InStep(next.connections[i], next.hub) {
        SwitchKeepsInStep(s.connections[i], s.hub, product);
      }
    }
  }

  lemma {:induction false} StartKeepsValid(s: System)
    requires SystemValid(s)
    ensures SystemValid(Start(s))
  {
    if s.runner.None? && s.session != s.lastStarted {
      InitiallyEmitting(EngineConfig(s.selected, s.heatmap));
    }
  }

  lemma {:induction false} RunnerKeepsValid(s: System, r: Runner)
    requires SystemValid(s) && s.runner.Some? && r.session == s.runner.value.session
    requires Emitting(r.cfg, r.engine) && (s.lastStarted == s.session ==> Tracks(s.hub, r))
    ensures SystemValid(s.(runner := Some(r)))
  {}

  lemma {:induction false} ProcessKeepsValid(s: System, call: EngineCall)
    requires SystemValid(s)
    ensures SystemValid(ProcessCall(s, call))
  {
    if s.runner.Some? && s.runner.value.pending.None? {
      var r := s.runner.value;
      var p := EngineStep(r.cfg, r.engine, call);
      EngineReportsItsWindow(r.cfg, r.engine, call);
      if s.lastStarted == s.session {
        ProcessTracks(s.hub, r, call);
      }
      RunnerKeepsValid(s, r.(engine := p.state, pending := if p.result.Success? then Some(p.result.value) else None));
    }
  }

  lemma {:induction false} PublishKeepsValid(s: System)
    requires SystemValid(s)
    ensures SystemValid(PublishNow(s))
  {
    if s.runner.Some? && s.runner.value.pending.Some? {
      var r := s.runner.value;
      var next := PublishNow(s);
      if s.lastStarted == s.session {
        PublishTracks(s.hub, r);
        forall i | 0 <= i < |next.connections| ensures InStep(next.connections[i], next.hub) {
          PublishKeepsInStep(s.connections[i], s.hub, r);
        }
      } else {
        assert next.connections == s.connections by {
          NothingDelivered(s.connections);
        }
      }
    }
  }

  lemma {:induction false} NothingDelivered(connections: seq<Connection>)
    ensures DeliverAll(connections, Append([])) == connections
  {
    forall i | 0 <= i < |connections| ensures DeliverAll(connections, Append([]))[i] == connections[i] {
      assert connections[i].queue + [] == connections[i].queue;
    }
  }

  lemma {:induction false} StatusKeepsValid(s: System, a: Announced, retry: nat, source: SourceStatus, detail: string)
    requires SystemValid(s) && s.runner.Some?
    requires a == PublishSourceStatus(s.hub, s.runner.value.session, source, detail, retry)
    ensures SystemValid(Announce(s, a))
  {
    var next := Announce(s, a);
    if AcceptsSession(s.hub, s.runner.value.session) {
      forall i | 0 <= i < |next.connections| ensures InStep(next.connections[i], next.hub) {
        StatusKeepsInStep(s.connections[i], s.hub, next.hub);
      }
    } else {
      NothingDelivered(s.connections);
    }
  }

  lemma {:induction false} ErrorKeepsValid(s: System, a: Announced, text: string)
    requires SystemValid(s) && s.runner.Some? && a == PublishError(s.hub, s.runner.value.session, text)
    ensures SystemValid(Announce(s, a))
  {
    var next := Announce(s, a);
    if AcceptsSession(s.hub, s.runner.value.session) {
      forall i | 0 <= i < |next.connections| ensures InStep(next.connections[i], next.hub) {
        ErrorKeepsInStep(s.connections[i], s.hub, text);
      }
    } else {
      NothingDelivered(s.connections);
    }
  }

  lemma {:induction false} ConnectionKeepsValid(s: System, i: nat, conn: Connection)
    requires SystemValid(s) && i < |s.connections| && InStep(conn, s.hub)
    ensures SystemValid(OnConnection(s, i, conn))
  {}

  lemma {:induction false} SubscribeKeepsValid(s: System, client: ClientState)
    requires SystemValid(s)
    ensures SystemValid(Act(s, Subscribe(client)))
  {
    WelcomeInStep(client, s.hub);
  }

  lemma {:induction false} SendKeepsValid(s: System, i: nat)
    requires SystemValid(s)
    ensures SystemValid(SendNext(s, i))
  {
    if i < |s.connections| && s.connections[i].queue != [] {
      var conn := s.connections[i];
      SendKeepsInStep(conn, s.hub);
      ConnectionKeepsValid(s, i, conn.(wire := conn.wire + [conn.queue[0]], queue := conn.queue[1..]));
    }
  }

  lemma {:induction false} ReceiveKeepsValid(s: System, i: nat)
    requires SystemValid(s)
    ensures SystemValid(ReceiveNext(s, i))
  {
    if i < |s.connections| && s.connections[i].wire != [] && s.connections[i].error.None? {
      var conn := s.connections[i];
      var h := Handle(conn.client, Encode(conn.wire[0]));
      ReceiveKeepsInStep(conn, s.hub);
      ConnectionKeepsValid(s, i, conn.(wire := conn.wire[1..], client := h.client, error := h.error));
    }
  }

  lemma {:induction false} RejectKeepsValid(s: System, i: nat, text: string)
    requires SystemValid(s)
    ensures SystemValid(Act(s, RejectControl(i, text)))
  {
    if i < |s.connections| {
      var conn := s.connections[i];
      ErrorKeepsInStep(conn, s.hub, text);
      ConnectionKeepsValid(s, i, conn.(wire := conn.wire + [Error(text)]));
    }
  }

  lemma {:induction false} TextsKeepValid(
      s: System, source: SourceStatus, detail: string, retry: nat, text: string)
    requires SystemValid(s)
    ensures SystemValid(Act(s, PublishStatus(source, detail, retry)))
    ensures SystemValid(Act(s, PublishFailureText(text)))
  {
    if s.runner.Some? {
      var id := s.runner.value.session;
      StatusKeepsValid(s, PublishSourceStatus(s.hub, id, source, detail, retry), retry, source, detail);
      ErrorKeepsValid(s, PublishError(s.hub, id, text), text);
    }
  }

  lemma {:induction false} FinishKeepsValid(s: System)
    requires SystemValid(s)
    ensures SystemValid(Act(s, FinishRunner))
  {}

  /** Every step of every participant keeps the invariant. */
  lemma {:induction false} ActKeepsValid(s: System, a: Action)
    requires SystemValid(s)
    ensures SystemValid(Act(s, a))
  {
    match a {
      case SwitchProduct(product) => SwitchKeepsValid(s, product);
      case StartRunner => StartKeepsValid(s);
      case FinishRunner => FinishKeepsValid(s);
      case Process(call) => ProcessKeepsValid(s, call);
      case PublishPending => PublishKeepsValid(s);
      case PublishStatus(source, detail, retry) => TextsKeepValid(s, source, detail, retry, "");
      case PublishFailureText(text) => TextsKeepValid(s, s.hub.source, "", 0, text);
      case Subscribe(client) => SubscribeKeepsValid(s, client);
      case Send(i) => SendKeepsValid(s, i);
      case Receive(i) => ReceiveKeepsValid(s, i);
      case RejectControl(i, text) => RejectKeepsValid(s, i, text);
    }
  }

  function Run(heatmap: HeatmapConfig, product: Product, actions: seq<Action>): (s: System)
    requires heatmap.Valid()
    ensures SystemValid(s)
  {
    if actions == [] then
      InitiallyValid(heatmap, product);
      InitialSystem(heatmap, product)
    else
      var s := Run(heatmap, product, actions[..|actions| - 1]);
      ActKeepsValid(s, actions[|actions| - 1]);
      Act(s, actions[|actions| - 1])
  }

  // ---------- The theorems ----------

  /**
   For every interleaving: no publish fails, no browser refuses a message, and once it
   has received everything sent to it, it holds exactly the hub's columns, indices,
   peak, position and status.
   */
  lemma {:induction false} DrainedBrowsersShowTheHub(
      heatmap: HeatmapConfig, product: Product, actions: seq<Action>, i: nat)
    requires heatmap.Valid()
    requires i < |Run(heatmap, product, actions).connections|
    ensures var s := Run(heatmap, product, actions);
      var conn := s.connections[i];
      && !s.failed && conn.error == None && Drained(conn).error == None
      && (s.hub.ready ==> ShowsHub(Drained(conn).client, s.hub))
      && (conn.wire == [] && conn.queue == [] ==> Drained(conn).client == conn.client)
  {
    var conn := Run(heatmap, product, actions).connections[i];
    if conn.wire == [] && conn.queue == [] {
      assert conn.wire + conn.queue == [];
    }
  }

  /** While the current session's engine has nothing left to publish, that is the engine's own window. */
  lemma {:induction false} DrainedBrowsersShowTheEngine(
      heatmap: HeatmapConfig, product: Product, actions: seq<Action>, i: nat)
    requires heatmap.Valid()
    requires var s := Run(heatmap, product, actions);
      i < |s.connections| && s.runner.Some? && s.runner.value.session == s.session && s.runner.value.pending.None?
      && s.runner.value.engine.history.columns != [] && s.connections[i].wire == s.connections[i].queue == []
    ensures var s := Run(heatmap, product, actions);
      var e := s.runner.value.engine;
      var c := s.connections[i].client;
      && s.hub.columns == Indexed(e.history.columns, e.nextIndex)
      && c.data.Some? && c.data.value.columns == e.history.columns && c.data.value.peak == e.peak
      && c.data.value.product == s.selected && c.nextIndex == c.position == e.nextIndex
      && c.book == Some(e.status)
  {
    var s := Run(heatmap, product, actions);
    var r := s.runner.value;
    var e := r.engine;
    assert s.connections[i].wire + s.connections[i].queue == [];
    MirrorNothing(s.hub.columns, s.hub.position, if s.hub.hello.Some? then s.hub.hello.value.peak else 0.0);
    assert s.hub.columns == Indexed(e.history.columns, e.nextIndex);
    assert s.hub.ready;
    ValuesIndexed(e.history.columns, e.nextIndex);
    assert KeepLast(e.history.columns, r.cfg.heatmap.maxColumns) == e.history.columns;
  }

  lemma {:induction false} ValuesIndexed(columns: Columns, next: nat)
    requires |columns| <= next
    ensures Values(Indexed(columns, next)) == columns
  {
    if columns != [] {
      var front := columns[..|columns| - 1];
      ValuesIndexed(front, next - 1);
      assert Indexed(columns, next)[..|columns| - 1] == Indexed(front, next - 1);
      assert columns == front + [columns[|columns| - 1]];
    }
  }

  /** The data a browser should hold while nothing is on its way to it. */
  predicate ShowsExactly(c: ClientState, h: HubState) {
    if h.ready then ShowsHub(c, h) else c.data == None
  }

  /**
   A browser that reconnects with data of an earlier connection keeps it until the hub
   has a window again or switches product: exactly then, and only then, a drained
   browser does not match the hub.
   */
  lemma {:induction false} DrainedBrowserMatchesIff(
      heatmap: HeatmapConfig, product: Product, actions: seq<Action>, i: nat)
    requires heatmap.Valid() && i < |Run(heatmap, product, actions).connections|
    ensures var s := Run(heatmap, product, actions);
      ShowsExactly(Drained(s.connections[i]).client, s.hub) <==> s.hub.ready || s.connections[i].carried == None
  {}

  /** Such a reconnection: old data survives the welcome of a hub that is not ready. */
  lemma {:induction false} ReconnectingBrowserKeepsOldData(heatmap: HeatmapConfig, product: Product,
    previous: ClientState)
    requires heatmap.Valid() && previous.data.Some?
    ensures var s := Run(heatmap, product, [Subscribe(previous)]);
      |s.connections| == 1 && !ShowsExactly(Drained(s.connections[0]).client, s.hub)
  {
    var actions := [Subscribe(previous)];
    assert actions[..0] == [];
    DrainedBrowserMatchesIff(heatmap, product, actions, 0);
  }

  /** After a switch, whatever the old session's runner still publishes changes neither the hub nor any queue. */
  lemma {:induction false} StaleRunnerChangesNothing(
      heatmap: HeatmapConfig, product: Product, actions: seq<Action>, late: Action)
    requires heatmap.Valid()
    requires var s := Run(heatmap, product, actions);
      s.runner.Some? && s.runner.value.session != s.session
    requires late.PublishPending? || late.PublishStatus? || late.PublishFailureText?
    ensures var s := Run(heatmap, product, actions);
      Act(s, late).hub == s.hub && Act(s, late).connections == s.connections
  {
    NothingDelivered(Run(heatmap, product, actions).connections);
  }

  /** The sessions for which a runner, and with it an engine, was created. */
  function StartedSessions(heatmap: HeatmapConfig, product: Product, actions: seq<Action>): seq<nat>
    requires heatmap.Valid()
  {
    if actions == [] then []
    else
      var before := actions[..|actions| - 1];
      var s := Run(heatmap, product, before);
      StartedSessions(heatmap, product, before)
      + if actions[|actions| - 1].StartRunner? && Start(s) != s then [s.session] else []
  }

  lemma {:induction false} OnlyStartMarksASession(s: System, a: Action)
    requires SystemValid(s)
    ensures a.StartRunner? && Start(s) != s ==> s.lastStarted < s.session == Act(s, a).lastStarted
    ensures !(a.StartRunner? && Start(s) != s) ==> Act(s, a).lastStarted == s.lastStarted
  {}

  predicate Increasing(ids: seq<nat>, last: nat) {
    && (forall i, j :: 0 <= i < |ids| && i < j < |ids| ==> ids[i] < ids[j])
    && (forall i :: 0 <= i < |ids| ==> 1 <= ids[i] <= last)
  }

  lemma {:induction false} IncreasingSnoc(ids: seq<nat>, last: nat, next: nat)
    requires Increasing(ids, last) && last < next
    ensures Increasing(ids + [next], next)
  {}

  /** Session numbers handed to engines strictly increase: each session has at most one engine. */
  lemma {:induction false} EachSessionHasOneEngine(heatmap: HeatmapConfig, product: Product, actions: seq<Action>)
    requires heatmap.Valid()
    ensures Increasing(StartedSessions(heatmap, product, actions), Run(heatmap, product, actions).lastStarted)
  {
    if actions != [] {
      var before, a := actions[..|actions| - 1], actions[|actions| - 1];
      var s := Run(heatmap, product, before);
      EachSessionHasOneEngine(heatmap, product, before);
      OnlyStartMarksASession(s, a);
      if a.StartRunner? && Start(s) != s {
        IncreasingSnoc(StartedSessions(heatmap, product, before), s.lastStarted, s.session);
      } else {
        assert StartedSessions(heatmap, product, actions) == StartedSessions(heatmap, product, before);
      }
    }
  }
}
