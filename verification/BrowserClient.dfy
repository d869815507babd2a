/**
 The browser's stream state: what each message of a live or replay stream does to
 the displayed window, and which messages it refuses.
 */
module BrowserClients {
  import opened Wrappers
  import opened VenueEvents
  import opened HeatmapHistories
  import opened LiveHeatmapEngines
  import opened LiveStreams

  datatype StreamMode = ReplayMode | LiveMode | ScannerMode

  datatype Playback = Shown(status: Effective) | Paused | Playing | Complete

  datatype StreamConfig = StreamConfig(priceBinSize: real, priceBinCount: int, maxColumns: nat)

  /** A message as the browser reads it; `total` is given on replay streams, `firstIndex` on live ones. */
  datatype Frame =
    | HelloFrame(live: bool, product: Product, config: StreamConfig, firstIndex: int, total: int, peak: real)
    | ColumnFrame(index: int, replace: bool, column: HeatmapColumn)
    | StateFrame(
        liveState: bool, status: Playback, source: Option<SourceStatus>, book: Option<LiveStatus>,
        position: nat, speed: int, detail: string, retry: int)
    | ResetProductFrame(product: Product)
    | ResetColumnsFrame
    | ErrorFrame(text: string)

  datatype ClientError =
    | InvalidMetadata | ColumnBeforeMetadata | InvalidColumn | ReplacementOutOfSequence | ColumnOutOfSequence

  datatype ClientData = ClientData(
    product: Product, config: StreamConfig, columns: Columns, peak: real, total: Option<int>)

  datatype ClientState = ClientState(
    mode: StreamMode, data: Option<ClientData>, nextIndex: int, position: int, speed: int, status: Playback,
    source: Option<SourceStatus>, book: Option<LiveStatus>, detail: string, retry: int)

  datatype Handled = Handled(client: ClientState, error: Option<ClientError>)

  function Fine(c: ClientState): Handled {
    Handled(c, None)
  }

  predicate ValidHello(f: Frame)
    requires f.HelloFrame?
  {
    && (if f.live then f.firstIndex >= 0 else f.total > 0)
    && f.config.priceBinCount > 0 && f.config.priceBinSize > 0.0
  }

  function OnHello(c: ClientState, f: Frame): Handled
    requires f.HelloFrame?
  {
    if !ValidHello(f) then Handled(c, Some(InvalidMetadata))
    else
      var first := if f.live then f.firstIndex else 0;
      Fine(c.(
        mode := if f.live then LiveMode else ReplayMode,
        data := Some(ClientData(f.product, f.config, [], f.peak, if f.live then None else Some(f.total))),
        nextIndex := first, position := first,
        status := if f.live then Shown(FromSource(SourceConnecting)) else Paused))
  }

  function OnLiveColumn(c: ClientState, d: ClientData, f: Frame): Handled
    requires f.ColumnFrame?
  {
    var peak := ColumnPeak(d.peak, f.column);
    if f.replace then
      if d.columns == [] || f.index != c.nextIndex - 1 then Handled(c, Some(ReplacementOutOfSequence))
      else
        var columns := d.columns[|d.columns| - 1 := f.column];
        Fine(c.(data := Some(d.(columns := columns, peak := peak)), position := c.nextIndex))
    else if f.index != c.nextIndex then Handled(c, Some(ColumnOutOfSequence))
    else
      var pushed := d.columns + [f.column];
      var columns := if |pushed| > d.config.maxColumns then pushed[1..] else pushed;
      Fine(c.(
        data := Some(d.(columns := columns, peak := peak)), nextIndex := c.nextIndex + 1, position := c.nextIndex + 1))
  }

  function OnReplayColumn(c: ClientState, d: ClientData, f: Frame): Handled
    requires f.ColumnFrame?
  {
    if f.index != |d.columns| then Handled(c, Some(ColumnOutOfSequence))
    else Fine(c.(data := Some(d.(columns := d.columns + [f.column])), position := f.index + 1))
  }

  function OnColumn(c: ClientState, f: Frame): Handled
    requires f.ColumnFrame?
  {
    match c.data
    case None => Handled(c, Some(ColumnBeforeMetadata))
    case Some(d) =>
      if |f.column.bids| != d.config.priceBinCount || |f.column.asks| != d.config.priceBinCount then
        Handled(c, Some(InvalidColumn))
      else if c.mode.LiveMode? then OnLiveColumn(c, d, f)
      else OnReplayColumn(c, d, f)
  }

  function OnState(c: ClientState, f: Frame): ClientState
    requires f.StateFrame?
  {
    if f.liveState || c.mode.LiveMode? then
      c.(mode := LiveMode, position := f.position, speed := f.speed, status := f.status,
         source := f.source, book := f.book, detail := f.detail, retry := f.retry)
    else if c.data.None? then c
    else
      var columns := c.data.value.columns;
      var kept := if c.mode.ReplayMode? && f.position < |columns| then columns[..f.position] else columns;
      c.(data := Some(c.data.value.(columns := kept)), position := f.position, speed := f.speed, status := f.status)
  }

  function OnReset(c: ClientState, f: Frame): ClientState
    requires f.ResetProductFrame? || f.ResetColumnsFrame?
  {
    if f.ResetProductFrame? then
      c.(mode := LiveMode, data := None, nextIndex := 0, position := 0,
         status := Shown(FromSource(SourceConnecting)), source := Some(SourceConnecting),
         book := Some(AwaitingSnapshot), detail := "", retry := 0)
    else if c.data.None? then c
    else c.(data := Some(c.data.value.(columns := [])), position := 0)
  }

  function Handle(c: ClientState, f: Frame): Handled {
    match f
    case HelloFrame(_, _, _, _, _, _) => OnHello(c, f)
    case ColumnFrame(_, _, _) => OnColumn(c, f)
    case StateFrame(_, _, _, _, _, _, _, _) => Fine(OnState(c, f))
    case ResetProductFrame(_) => Fine(OnReset(c, f))
    case ResetColumnsFrame => Fine(OnReset(c, f))
    case ErrorFrame(_) => Fine(c)
  }

  /** Everything received, in order; an error closes the socket. */
  function HandleAll(c: ClientState, frames: seq<Frame>): Handled {
    if frames == [] then Fine(c)
    else
      var before := HandleAll(c, frames[..|frames| - 1]);
      if before.error.Some? then before else Handle(before.client, frames[|frames| - 1])
  }

  class BrowserClient {
    var mode: StreamMode
    var data: Option<ClientData>
    var nextIndex: int
    var position: int
    var speed: int
    var status: Playback
    var source: Option<SourceStatus>
    var book: Option<LiveStatus>
    var detail: string
    var retry: int

    constructor ()
      ensures Contents() == FRESH_CLIENT
    {
      mode, data, nextIndex, position, speed := ReplayMode, None, 0, 0, 1;
      status, source, book, detail, retry := Shown(FromSource(SourceConnecting)), None, None, "", 0;
    }

    function Contents(): ClientState
      reads this
    {
      ClientState(mode, data, nextIndex, position, speed, status, source, book, detail, retry)
    }

    method InitializeStream(f: Frame) returns (error: Option<ClientError>)
      requires f.HelloFrame?
      modifies this
      ensures Handled(Contents(), error) == OnHello(old(Contents()), f)
    {
      if !ValidHello(f) {
        return Some(InvalidMetadata);
      }
      mode := if f.live then LiveMode else ReplayMode;
      nextIndex := if f.live then f.firstIndex else 0;
      data := Some(ClientData(f.product, f.config, [], f.peak, if f.live then None else Some(f.total)));
      position := nextIndex;
      status := if f.live then Shown(FromSource(SourceConnecting)) else Paused;
      return None;
    }

    method HandleColumn(f: Frame) returns (error: Option<ClientError>)
      requires f.ColumnFrame?
      modifies this
      ensures Handled(Contents(), error) == OnColumn(old(Contents()), f)
    {
      if data.None? {
        return Some(ColumnBeforeMetadata);
      }
      var d := data.value;
      if |f.column.bids| != d.config.priceBinCount || |f.column.asks| != d.config.priceBinCount {
        return Some(InvalidColumn);
      }
      if mode.LiveMode? {
        var columns := d.columns;
        if f.replace {
          if columns == [] || f.index != nextIndex - 1 {
            return Some(ReplacementOutOfSequence);
          }
          columns := columns[|columns| - 1 := f.column];
        } else {
          if f.index != nextIndex {
            return Some(ColumnOutOfSequence);
          }
          columns := columns + [f.column];
          nextIndex := nextIndex + 1;
          if |columns| > d.config.maxColumns {
            columns := columns[1..];
          }
        }
        position := nextIndex;
        data := Some(d.(columns := columns, peak := ColumnPeak(d.peak, f.column)));
      } else {
        if f.index != |d.columns| {
          return Some(ColumnOutOfSequence);
        }
        data := Some(d.(columns := d.columns + [f.column]));
        position := f.index + 1;
      }
      return None;
    }

    method HandlePlaybackState(f: Frame)
      requires f.StateFrame?
      modifies this
      ensures Contents() == OnState(old(Contents()), f)
    {
      if f.liveState || mode.LiveMode? {
        mode := LiveMode;
        position, speed, status := f.position, f.speed, f.status;
        source, book, detail, retry := f.source, f.book, f.detail, f.retry;
        return;
      }
      if data.None? {
        return;
      }
      if mode.ReplayMode? && f.position < |data.value.columns| {
        data := Some(data.value.(columns := data.value.columns[..f.position]));
      }
      position, speed, status := f.position, f.speed, f.status;
    }

    method HandleReset(f: Frame)
      requires f.ResetProductFrame? || f.ResetColumnsFrame?
      modifies this
      ensures Contents() == OnReset(old(Contents()), f)
    {
      if f.ResetProductFrame? {
        mode, data, nextIndex, position := LiveMode, None, 0, 0;
        status, source, book := Shown(FromSource(SourceConnecting)), Some(SourceConnecting), Some(AwaitingSnapshot);
        detail, retry := "", 0;
      } else if data.Some? {
        data := Some(data.value.(columns := []));
        position := 0;
      }
    }

    method HandleStreamMessage(f: Frame) returns (error: Option<ClientError>)
      modifies this
      ensures Handled(Contents(), error) == Handle(old(Contents()), f)
    {
      error := None;
      if f.HelloFrame? {
        error := InitializeStream(f);
      } else if f.ColumnFrame? {
        error := HandleColumn(f);
      } else if f.StateFrame? {
        HandlePlaybackState(f);
      } else if !f.ErrorFrame? {
        HandleReset(f);
      }
    }
  }

  const FRESH_CLIENT := ClientState(
    ReplayMode, None, 0, 0, 1, Shown(FromSource(SourceConnecting)), None, None, "", 0)
}
