/**
 The live stream hub: it mirrors the engine's window, keeps the messages a late
 subscriber needs and hands every change to the subscribers' queues.
 */
module LiveStreams {
  import opened Wrappers
  import opened VenueEvents
  import opened Truncation
  import opened LiveHeatmapEngines
  import opened ColumnMirrors

  datatype SourceStatus = SourceConnecting | SourceConnected | SourceDisconnected | SourceReconnecting

  datatype Effective = FromSource(source: SourceStatus) | FromBook(book: LiveStatus)

  datatype StateMessage = StateMessage(
    product: Option<Product>, status: Effective, source: SourceStatus, book: LiveStatus,
    position: nat, detail: string, retry: nat)

  datatype HelloMessage = HelloMessage(
    product: Product, timeBucket: int, priceBinSize: real, priceBinCount: nat, maxColumns: nat,
    firstIndex: nat, start: int, peak: real)

  /** The JSON texts on the wire, as their contents. */
  datatype Message =
    | Hello(hello: HelloMessage)
    | Column(update: ColumnUpdate)
    | State(state: StateMessage)
    | Reset(product: Product)
    | Error(text: string)

  datatype HubState = HubState(
    columns: seq<StoredColumn>, hello: Option<HelloMessage>, state: Option<StateMessage>, error: Option<string>,
    detail: string, product: Option<Product>, maxColumns: nat, position: nat, session: nat, retry: nat,
    source: SourceStatus, book: LiveStatus, ready: bool)

  const FRESH_HUB := HubState(
    [], None, None, None, "", None, 0, 0, 0, 0, SourceConnecting, AwaitingSnapshot, false)

  /** What one hub operation does to every subscriber's queue. */
  datatype Delivery = Append(added: seq<Message>) | Replace(queue: seq<Message>)

  function Deliver(queue: seq<Message>, d: Delivery): seq<Message> {
    match d case Append(added) => queue + added case Replace(all) => all
  }

  datatype Announced = Announced(hub: HubState, delivery: Delivery)

  // ---------- Messages ----------

  function StatusShown(source: SourceStatus, book: LiveStatus): Effective {
    if source.SourceConnected? then FromBook(book) else FromSource(source)
  }

  function StateOf(h: HubState): StateMessage {
    StateMessage(h.product, StatusShown(h.source, h.book), h.source, h.book, h.position, h.detail, h.retry)
  }

  function Refreshed(h: HubState): HubState {
    h.(state := Some(StateOf(h)))
  }

  function ErrorMessages(h: HubState): seq<Message> {
    if h.error.Some? then [Error(h.error.value)] else []
  }

  /** Stored columns are sent to late subscribers as plain additions. */
  function AsUpdates(columns: seq<StoredColumn>): (updates: seq<ColumnUpdate>)
    ensures |updates| == |columns|
  {
    if columns == [] then []
    else
      var c := columns[|columns| - 1];
      AsUpdates(columns[..|columns| - 1]) + [ColumnUpdate(c.index, false, c.column)]
  }

  function UpdateMessages(updates: seq<ColumnUpdate>): (messages: seq<Message>)
    ensures |messages| == |updates|
  {
    if updates == [] then []
    else UpdateMessages(updates[..|updates| - 1]) + [Column(updates[|updates| - 1])]
  }

  function CurrentState(h: HubState): StateMessage {
    if h.state.Some? then h.state.value else StateOf(h)
  }

  function SnapshotMessages(h: HubState): seq<Message> {
    (if h.hello.Some? then [Hello(h.hello.value)] else [])
    + UpdateMessages(AsUpdates(h.columns)) + [State(CurrentState(h))] + ErrorMessages(h)
  }

  function PendingMessages(h: HubState): seq<Message> {
    [State(CurrentState(h))] + ErrorMessages(h)
  }

  function WelcomeMessages(h: HubState): seq<Message> {
    if h.ready then SnapshotMessages(h) else PendingMessages(h)
  }

  // ---------- Operations ----------

  predicate AcceptsSession(h: HubState, session: nat) {
    session == 0 || session == h.session
  }

  function FirstState(product: Product): StateMessage {
    StateMessage(Some(product), FromSource(SourceConnecting), SourceConnecting, AwaitingSnapshot, 0, "", 0)
  }

  /** A product session starts with nothing but its number, its product and a connecting source. */
  function BeginSession(h: HubState, product: Product): Announced {
    Announced(
      HubState(
        [], None, Some(FirstState(product)), None, "", Some(product), 0, 0, h.session + 1, 0,
        SourceConnecting, AwaitingSnapshot, false),
      Replace([Reset(product), State(FirstState(product))]))
  }

  datatype PublishFailure = ReplacementMismatch | MetadataUnresolved

  /** The part of `publish` between mirroring the columns and telling the subscribers. */
  function HelloFor(h: HubState, cfg: EngineConfig, e: EngineState): Option<HelloMessage> {
    if e.history.resolved.None? || e.history.columns == [] || h.columns == [] then None
    else Some(HelloMessage(
      cfg.product, cfg.heatmap.timeBucket, e.history.resolved.value, cfg.heatmap.priceBinCount,
      cfg.heatmap.maxColumns, h.columns[0].index, e.history.columns[0].timestamp, e.peak))
  }

  function Absorbed(h: HubState, cfg: EngineConfig, columns: seq<StoredColumn>): HubState {
    h.(columns := KeepLast(columns, cfg.heatmap.maxColumns), maxColumns := cfg.heatmap.maxColumns)
  }

  function BecomesReady(h: HubState, e: EngineState): bool {
    !h.ready && h.columns != [] && e.history.resolved.Some?
  }

  function Position(columns: seq<StoredColumn>): nat {
    if columns == [] then 0 else columns[|columns| - 1].index + 1
  }

  /** The hub once metadata, position and status are taken from the engine. */
  function Updated(h: HubState, e: EngineState, hello: Option<HelloMessage>): HubState {
    Refreshed(
      if hello.Some? then h.(ready := true, hello := hello, position := Position(h.columns), book := e.status)
      else h.(book := e.status))
  }

  /** A snapshot for everybody the first time there is one; afterwards the status change and the updates. */
  function DeliveryFor(next: HubState, becameReady: bool, r: EngineResult): Delivery {
    if becameReady then Replace(SnapshotMessages(next))
    else if !next.ready then Append([])
    else Append((if r.statusChange.Some? then [State(StateOf(next))] else []) + UpdateMessages(r.columns))
  }

  function PublishResult(
      h: HubState, cfg: EngineConfig, e: EngineState, r: EngineResult): Result<Announced, PublishFailure> {
    if r.statusChange.None? && r.columns == [] then Success(Announced(h, Append([])))
    else
      var m := Mirror(h.columns, r.columns);
      if !m.matched then Failure(ReplacementMismatch)
      else
        var absorbed := Absorbed(h, cfg, m.columns);
        var becameReady := BecomesReady(absorbed, e);
        var ready := h.ready || becameReady;
        var hello := HelloFor(absorbed, cfg, e);
        if ready && hello.None? then Failure(MetadataUnresolved)
        else
          var next := Updated(absorbed, e, if ready then hello else None);
          Success(Announced(next, DeliveryFor(next, becameReady, r)))
  }

  /** What a `publish` that throws leaves: the updates before the mismatch, or everything but metadata and status. */
  function FailedPublish(h: HubState, cfg: EngineConfig, updates: seq<ColumnUpdate>): HubState {
    var m := Mirror(h.columns, updates);
    if m.matched then Absorbed(h, cfg, m.columns).(ready := true) else h.(columns := m.columns)
  }

  function PublishFrom(h: HubState, session: nat, cfg: EngineConfig, e: EngineState, r: EngineResult)
    : Result<Announced, PublishFailure>
  {
    if AcceptsSession(h, session) then PublishResult(h, cfg, e, r) else Success(Announced(h, Append([])))
  }

  function WithSource(h: HubState, source: SourceStatus, detail: string, retry: nat): HubState {
    var cleared := source.SourceConnecting? || source.SourceConnected?;
    Refreshed(h.(source := source, detail := detail, retry := retry, error := if cleared then None else h.error))
  }

  function PublishSourceStatus(h: HubState, session: nat, source: SourceStatus, detail: string, retry: nat): Announced {
    if !AcceptsSession(h, session) then Announced(h, Append([]))
    else
      var next := WithSource(h, source, detail, retry);
      Announced(next, Append([State(StateOf(next))]))
  }

  function PublishError(h: HubState, session: nat, text: string): Announced {
    if AcceptsSession(h, session) then Announced(h.(error := Some(text)), Append([Error(text)]))
    else Announced(h, Append([]))
  }

  // ---------- The classes ----------

  class LiveStreamSubscriber {
    var messages: seq<Message>

    constructor ()
      ensures messages == []
    {
      messages := [];
    }

    /** `wait_for_message` once it has waited. */
    method Take() returns (message: Option<Message>)
      modifies this
      ensures old(messages) == [] ==> message == None && messages == []
      ensures old(messages) != [] ==> message.Some? && old(messages) == [message.value] + messages
    {
      if messages == [] {
        return None;
      }
      message := Some(messages[0]);
      messages := messages[1..];
    }

    method Enqueue(message: Message)
      modifies this
      ensures messages == old(messages) + [message]
    {
      messages := messages + [message];
    }

    method ReplaceQueue(all: seq<Message>)
      modifies this
      ensures messages == all
    {
      messages := [];
      for i := 0 to |all|
        invariant messages == all[..i]
      {
        messages := messages + [all[i]];
      }
    }
  }

  class LiveStreamHub {
    var subscribers: seq<LiveStreamSubscriber>
    var columns: seq<StoredColumn>
    var hello: Option<HelloMessage>
    var state: Option<StateMessage>
    var error: Option<string>
    var detail: string
    var product: Option<Product>
    var maxColumns: nat
    var position: nat
    var session: nat
    var retry: nat
    var source: SourceStatus
    var book: LiveStatus
    var ready: bool

    constructor ()
      ensures Valid() && subscribers == [] && Contents() == FRESH_HUB
    {
      subscribers, columns, hello, state, error, detail, product := [], [], None, None, None, "", None;
      maxColumns, position, session, retry := 0, 0, 0, 0;
      source, book, ready := SourceConnecting, AwaitingSnapshot, false;
    }

    function Contents(): HubState
      reads this
    {
      HubState(
        columns, hello, state, error, detail, product, maxColumns, position, session, retry, source, book, ready)
    }

    /** No queue is registered twice. */
    ghost predicate Valid()
      reads this
    {
      forall i, j :: 0 <= i < |subscribers| && i < j < |subscribers| ==> subscribers[i] != subscribers[j]
    }

    method EnqueueToAll(message: Message)
      requires Valid()
      modifies subscribers
      ensures forall k :: 0 <= k < |subscribers| ==> subscribers[k].messages == old(subscribers[k].messages) + [message]
    {
      for i := 0 to |subscribers|
        invariant forall k :: 0 <= k < i ==> subscribers[k].messages == old(subscribers[k].messages) + [message]
        invariant forall k :: i <= k < |subscribers| ==> subscribers[k].messages == old(subscribers[k].messages)
      {
        subscribers[i].Enqueue(message);
      }
    }

    method ReplaceAll(all: seq<Message>)
      requires Valid()
      modifies subscribers
      ensures forall k :: 0 <= k < |subscribers| ==> subscribers[k].messages == all
    {
      for i := 0 to |subscribers|
        invariant forall k :: 0 <= k < i ==> subscribers[k].messages == all
      {
        subscribers[i].ReplaceQueue(all);
      }
    }

    /** `refresh_state_message`. */
    method RefreshState()
      modifies this`state
      ensures Contents() == Refreshed(old(Contents()))
    {
      state := Some(StateOf(Contents()));
    }

    /** Everything but the number, the product and the state message goes back to how it started. */
    method ClearFields()
      modifies this
      ensures subscribers == old(subscribers) && session == old(session)
      ensures columns == [] && hello == None && error == None && detail == "" && !ready
      ensures maxColumns == 0 && position == 0 && retry == 0
      ensures source == SourceConnecting && book == AwaitingSnapshot
    {
      columns, hello, error, detail := [], None, None, "";
      maxColumns, position, retry := 0, 0, 0;
      source, book, ready := SourceConnecting, AwaitingSnapshot, false;
    }

    method ClearFor(next: Product)
      modifies this
      ensures subscribers == old(subscribers) && Contents() == BeginSession(old(Contents()), next).hub
    {
      ClearFields();
      session := session + 1;
      product := Some(next);
      state := Some(FirstState(next));
    }

    method BeginProductSession(next: Product) returns (id: nat)
      requires Valid()
      modifies this, subscribers
      ensures Valid() && subscribers == old(subscribers)
      ensures id == session && Contents() == BeginSession(old(Contents()), next).hub
      ensures forall k :: 0 <= k < |subscribers| ==>
        subscribers[k].messages == Deliver(old(subscribers[k].messages), BeginSession(old(Contents()), next).delivery)
    {
      ClearFor(next);
      ReplaceAll([Reset(next), State(FirstState(next))]);
      return session;
    }

    method Subscribe() returns (subscriber: LiveStreamSubscriber)
      requires Valid()
      modifies this`subscribers
      ensures fresh(subscriber) && subscribers == old(subscribers) + [subscriber]
      ensures subscriber.messages == WelcomeMessages(Contents())
    {
      subscriber := new LiveStreamSubscriber();
      subscribers := subscribers + [subscriber];
      subscriber.ReplaceQueue(if ready then SnapshotMessages(Contents()) else PendingMessages(Contents()));
    }

    /** The mirroring loop; false when a replacement does not match the newest column. */
    method MirrorUpdates(updates: seq<ColumnUpdate>) returns (matched: bool)
      modifies this`columns
      ensures Mirrored(columns, matched) == Mirror(old(columns), updates)
    {
      for i := 0 to |updates|
        invariant Mirrored(columns, true) == Mirror(old(columns), updates[..i])
      {
        var u := updates[i];
        assert updates[..i + 1][..i] == updates[..i];
        if u.replacing {
          if columns == [] || columns[|columns| - 1].index != u.index {
            MirrorStopsAtMismatch(old(columns), updates, i + 1);
            return false;
          }
          columns := columns[|columns| - 1 := StoredColumn(u.index, u.column)];
        } else {
          columns := columns + [StoredColumn(u.index, u.column)];
        }
      }
      assert updates[..|updates|] == updates;
      return true;
    }

    method Trim(max: nat)
      modifies this`columns, this`maxColumns
      ensures maxColumns == max && columns == KeepLast(old(columns), max)
    {
      maxColumns := max;
      while |columns| > maxColumns
        invariant maxColumns == max
        invariant |columns| <= |old(columns)| && columns == old(columns)[|old(columns)| - |columns|..]
        invariant |old(columns)| <= max ==> columns == old(columns)
        invariant |old(columns)| > max ==> |columns| >= max
      {
        columns := columns[1..];
      }
    }

    /** Metadata, position and status are taken from the engine; `found` is false when its metadata is unresolved. */
    method TakeMetadata(engine: LiveHeatmapEngine) returns (becameReady: bool, found: bool)
      requires engine.Valid()
      modifies this`ready, this`hello, this`position, this`book, this`state
      ensures var h, e := old(Contents()), engine.State();
        var shown := if h.ready || BecomesReady(h, e) then HelloFor(h, engine.Config(), e) else None;
        && becameReady == BecomesReady(h, e)
        && found == (h.ready || becameReady ==> shown.Some?)
        && Contents() == if found then Updated(h, e, shown) else h.(ready := true)
    {
      becameReady := !ready && columns != [] && engine.heatmap.resolved.Some?;
      if becameReady {
        ready := true;
      }
      if ready {
        var metadata := HelloFor(Contents(), engine.Config(), engine.State());
        if metadata.None? {
          return becameReady, false;
        }
        hello := metadata;
        position := Position(columns);
      }
      book := engine.status;
      RefreshState();
      return becameReady, true;
    }

    method Announce(becameReady: bool, result: EngineResult)
      requires Valid() && (becameReady ==> ready)
      modifies subscribers
      ensures forall k :: 0 <= k < |subscribers| ==>
        subscribers[k].messages == Deliver(old(subscribers[k].messages), DeliveryFor(Contents(), becameReady, result))
    {
      if becameReady {
        ReplaceAll(SnapshotMessages(Contents()));
      } else if ready {
        if result.statusChange.Some? {
          EnqueueToAll(State(StateOf(Contents())));
        }
        EnqueueUpdates(result.columns);
      }
    }

    /** Mirror the updates and evict. */
    method Absorb(engine: LiveHeatmapEngine, updates: seq<ColumnUpdate>) returns (matched: bool)
      modifies this`columns, this`maxColumns
      ensures var m := Mirror(old(columns), updates);
        && matched == m.matched
        && Contents() == if matched then Absorbed(old(Contents()), engine.Config(), m.columns)
           else old(Contents()).(columns := m.columns)
    {
      matched := MirrorUpdates(updates);
      if matched {
        Trim(engine.heatmap.config.maxColumns);
      }
    }

    method PublishLocked(engine: LiveHeatmapEngine, result: EngineResult) returns (failure: Option<PublishFailure>)
      requires Valid() && engine.Valid()
      modifies this, subscribers
      ensures Valid() && subscribers == old(subscribers)
      ensures var p := PublishResult(old(Contents()), engine.Config(), engine.State(), result);
        && (failure.Some? <==> p.Failure?)
        && (failure.Some? ==>
              failure.value == p.error
              && Contents() == FailedPublish(old(Contents()), engine.Config(), result.columns))
        && (failure.None? ==> Contents() == p.value.hub)
        && forall k :: 0 <= k < |subscribers| ==>
             subscribers[k].messages
               == if failure.Some? then old(subscribers[k].messages)
                  else Deliver(old(subscribers[k].messages), p.value.delivery)
    {
      if result.statusChange.None? && result.columns == [] {
        return None;
      }
      var matched := Absorb(engine, result.columns);
      if !matched {
        return Some(ReplacementMismatch);
      }
      var becameReady, found := TakeMetadata(engine);
      if !found {
        return Some(MetadataUnresolved);
      }
      Announce(becameReady, result);
      return None;
    }

    method Publish(id: nat, engine: LiveHeatmapEngine, result: EngineResult) returns (failure: Option<PublishFailure>)
      requires Valid() && engine.Valid()
      modifies this, subscribers
      ensures Valid() && subscribers == old(subscribers)
      ensures var p := PublishFrom(old(Contents()), id, engine.Config(), engine.State(), result);
        && (failure.Some? <==> p.Failure?)
        && (failure.Some? ==>
              failure.value == p.error
              && Contents() == FailedPublish(old(Contents()), engine.Config(), result.columns))
        && (failure.None? ==> Contents() == p.value.hub)
        && forall k :: 0 <= k < |subscribers| ==>
             subscribers[k].messages
               == if failure.Some? then old(subscribers[k].messages)
                  else Deliver(old(subscribers[k].messages), p.value.delivery)
    {
      if !(id == 0 || id == session) {
        return None;
      }
      failure := PublishLocked(engine, result);
    }

    method EnqueueUpdates(updates: seq<ColumnUpdate>)
      requires Valid()
      modifies subscribers
      ensures forall k :: 0 <= k < |subscribers| ==>
        subscribers[k].messages == old(subscribers[k].messages) + UpdateMessages(updates)
    {
      for i := 0 to |updates|
        invariant forall k :: 0 <= k < |subscribers| ==>
          subscribers[k].messages == old(subscribers[k].messages) + UpdateMessages(updates[..i])
      {
        assert updates[..i + 1][..i] == updates[..i];
        EnqueueToAll(Column(updates[i]));
      }
      assert updates[..|updates|] == updates;
    }

    method TakeSourceStatus(next: SourceStatus, text: string, delay: nat)
      modifies this`source, this`detail, this`retry, this`error, this`state
      ensures Contents() == WithSource(old(Contents()), next, text, delay)
    {
      source, detail, retry := next, text, delay;
      if next.SourceConnecting? || next.SourceConnected? {
        error := None;
      }
      RefreshState();
    }

    method PublishSourceStatusFor(id: nat, next: SourceStatus, text: string, delay: nat)
      requires Valid()
      modifies this, subscribers
      ensures Valid() && subscribers == old(subscribers)
      ensures var a := PublishSourceStatus(old(Contents()), id, next, text, delay);
        && Contents() == a.hub
        && forall k :: 0 <= k < |subscribers| ==>
             subscribers[k].messages == Deliver(old(subscribers[k].messages), a.delivery)
    {
      if id == 0 || id == session {
        TakeSourceStatus(next, text, delay);
        EnqueueToAll(State(state.value));
      }
    }

    method PublishErrorFor(id: nat, text: string)
      requires Valid()
      modifies this, subscribers
      ensures Valid() && subscribers == old(subscribers)
      ensures var a := PublishError(old(Contents()), id, text);
        && Contents() == a.hub
        && forall k :: 0 <= k < |subscribers| ==>
             subscribers[k].messages == Deliver(old(subscribers[k].messages), a.delivery)
    {
      if id == 0 || id == session {
        error := Some(text);
        EnqueueToAll(Error(text));
      }
    }
  }

  /** After a mismatch the remaining updates are not looked at. */
  lemma {:induction false} MirrorStopsAtMismatch(columns: seq<StoredColumn>, updates: seq<ColumnUpdate>, n: nat)
    requires n <= |updates| && !Mirror(columns, updates[..n]).matched
    ensures Mirror(columns, updates) == Mirror(columns, updates[..n])
    decreases |updates|
  {
    if n < |updates| {
      assert updates[..|updates| - 1][..n] == updates[..n];
      MirrorStopsAtMismatch(columns, updates[..|updates| - 1], n);
    } else {
      assert updates[..n] == updates;
    }
  }
}
