/**
 The live engine: book messages or trusted events go in, status changes and
 numbered column updates come out. Parsing failures and exceptions are results.
 */
module LiveHeatmapEngines {
  import opened Wrappers
  import opened OrderBooks
  import opened VenueEvents
  import opened SequenceTrackers
  import opened BookReconstructors
  import opened HeatmapHistories

  datatype LiveStatus = AwaitingSnapshot | LiveNow | SequenceGap

  datatype ColumnUpdate = ColumnUpdate(index: nat, replacing: bool, column: HeatmapColumn)

  datatype EngineResult = EngineResult(statusChange: Option<LiveStatus>, columns: seq<ColumnUpdate>)

  const NOTHING := EngineResult(None, [])

  datatype EngineError = Unparsable | WrongProduct | NoBookState | SampleFailed(outcome: Outcome)

  datatype ParsedMessage = ParsedMessage(number: SequenceNumber, book: Option<BookMessage>)

  datatype EngineConfig = EngineConfig(product: Product, heatmap: HeatmapConfig)

  datatype EngineState = EngineState(
    tracker: Option<SequenceNumber>, reconstruction: Reconstruction, history: HistoryState,
    status: LiveStatus, lastEmitted: Option<int>, nextIndex: nat, peak: real)

  function InitialEngine(cfg: EngineConfig): EngineState {
    EngineState(None, UNSYNCHRONIZED, HeatmapHistories.Initial(cfg.heatmap), AwaitingSnapshot, None, 0, 0.0)
  }

  // ---------- Collecting columns ----------

  function Max(a: real, b: real): real {
    if a < b then b else a
  }

  function PeakOf(peak: real, quantities: seq<real>): real {
    if quantities == [] then peak
    else Max(PeakOf(peak, quantities[..|quantities| - 1]), quantities[|quantities| - 1])
  }

  function ColumnPeak(peak: real, c: HeatmapColumn): real {
    PeakOf(PeakOf(peak, c.bids), c.asks)
  }

  function ColumnsPeak(peak: real, columns: Columns): real {
    if columns == [] then peak else ColumnPeak(ColumnsPeak(peak, columns[..|columns| - 1]), columns[|columns| - 1])
  }

  /** The columns newer than a time, or all of them, oldest first. */
  function Newer(columns: Columns, time: Option<int>): Columns {
    if columns == [] then []
    else
      var c := columns[|columns| - 1];
      Newer(columns[..|columns| - 1], time) + if time.None? || c.timestamp > time.value then [c] else []
  }

  /** New columns numbered from `index` on. */
  function Numbered(columns: Columns, index: nat): (updates: seq<ColumnUpdate>)
    ensures |updates| == |columns|
  {
    if columns == [] then []
    else Numbered(columns[..|columns| - 1], index) + [ColumnUpdate(index + |columns| - 1, false,
      columns[|columns| - 1])]
  }

  predicate Replaces(s: EngineState) {
    && s.history.columns != []
    && s.lastEmitted == Some(s.history.columns[|s.history.columns| - 1].timestamp)
  }

  /** The columns that become new messages when nothing is replaced. */
  function Pending(s: EngineState): Columns {
    Newer(s.history.columns, s.lastEmitted)
  }

  predicate CanReplace(s: EngineState) {
    s.lastEmitted.Some? ==> s.nextIndex > 0
  }

  function Collected(s: EngineState): seq<ColumnUpdate>
    requires CanReplace(s)
  {
    if Replaces(s) then [ColumnUpdate(s.nextIndex - 1, true, s.history.columns[|s.history.columns| - 1])]
    else Numbered(Pending(s), s.nextIndex)
  }

  function AfterCollecting(s: EngineState): EngineState {
    if Replaces(s) then
      s.(peak := ColumnPeak(s.peak, s.history.columns[|s.history.columns| - 1]))
    else if Pending(s) == [] then s
    else
      s.(peak := ColumnsPeak(s.peak, Pending(s)), nextIndex := s.nextIndex + |Pending(s)|,
         lastEmitted := Some(Pending(s)[|Pending(s)| - 1].timestamp))
  }

  // ---------- The three entry points ----------

  datatype Step<T> = Step(state: EngineState, result: T)

  type Processed = Step<Result<EngineResult, EngineError>>

  function StatusChange(s: EngineState, status: LiveStatus): Option<LiveStatus> {
    if s.status == status then None else Some(status)
  }

  /** `heatmap_.sample` on the bounded window. */
  function Sampling(cfg: EngineConfig, s: EngineState, timestamp: int, book: Book): (HistoryState, Outcome)
    requires cfg.heatmap.Valid() && PositiveSize(s.history)
  {
    var (next, outcome) := Observe(cfg.heatmap, s.history, timestamp, book);
    (Bound(cfg.heatmap, next), outcome)
  }

  /** Sample the book, then report Live and the new columns. */
  function SampleAndCollect(cfg: EngineConfig, s: EngineState, timestamp: int, book: Book): Processed
    requires cfg.heatmap.Valid() && PositiveSize(s.history) && CanReplace(s)
  {
    var (history, outcome) := Sampling(cfg, s, timestamp, book);
    var sampled := s.(history := history);
    match outcome
    case OutOfOrder => Step(sampled, Failure(SampleFailed(outcome)))
    case BadMidpoint => Step(sampled, Failure(SampleFailed(outcome)))
    case NotSampled => Step(sampled, Success(NOTHING))
    case Sampled =>
      var live := sampled.(status := LiveNow);
      Step(AfterCollecting(live), Success(EngineResult(StatusChange(s, LiveNow), Collected(live))))
  }

  /** What a sequence gap does before the message is reconstructed. */
  function NoteGap(s: EngineState, status: SequenceStatus, kind: BookEventType): EngineState {
    if status != Gap then s
    else
      s.(reconstruction := s.reconstruction.(synchronized := false),
         history := s.history.(carryForward := false),
         status := if kind.UpdateMessage? then SequenceGap else s.status)
  }

  function ProcessBookMessage(cfg: EngineConfig, s: EngineState, number: SequenceNumber, m: BookMessage): Processed
    requires cfg.heatmap.Valid() && PositiveSize(s.history) && CanReplace(s)
  {
    var sequence := Classify(s.tracker, number).status;
    var observed := s.(tracker := Advance(s.tracker, number));
    var noted := NoteGap(observed, sequence, m.kind);
    var next := noted.(
      reconstruction := Reconstruct(noted.reconstruction, m, sequence),
      tracker := if m.kind.SnapshotMessage? && sequence == Gap then Some(number) else noted.tracker);
    if m.product != cfg.product then Step(observed, Failure(WrongProduct))
    else if Applies(noted.reconstruction, m, sequence) then
      SampleAndCollect(cfg, next, m.timestamp, next.reconstruction.book)
    else
      Step(next, Success(EngineResult(
        if sequence == Gap then StatusChange(s, SequenceGap) else None, [])))
  }

  function ProcessRaw(cfg: EngineConfig, s: EngineState, parsed: Option<ParsedMessage>): Processed
    requires cfg.heatmap.Valid() && PositiveSize(s.history) && CanReplace(s)
  {
    match parsed
    case None => Step(s, Failure(Unparsable))
    case Some(message) =>
      match message.book
      case None => Step(s.(tracker := Advance(s.tracker, message.number)), Success(NOTHING))
      case Some(m) => ProcessBookMessage(cfg, s, message.number, m)
  }

  function Recovery(s: EngineState): Step<EngineResult> {
    Step(
      s.(tracker := None, reconstruction := s.reconstruction.(synchronized := false),
         history := s.history.(carryForward := false), status := AwaitingSnapshot),
      EngineResult(StatusChange(s, AwaitingSnapshot), []))
  }

  function ProcessTrusted(cfg: EngineConfig, s: EngineState, e: TrustedBookEvent): Processed
    requires cfg.heatmap.Valid() && PositiveSize(s.history) && CanReplace(s)
  {
    if e.market.product != cfg.product then Step(s, Failure(WrongProduct))
    else if e.kind.Invalidated? then Step(Recovery(s).state, Success(Recovery(s).result))
    else if e.kind.Update? && s.status == AwaitingSnapshot then Step(s, Success(NOTHING))
    else match e.book
      case None => Step(s, Failure(NoBookState))
      case Some(book) => SampleAndCollect(cfg, s, e.timestamp, book)
  }

  // ---------- The class ----------

  class LiveHeatmapEngine {
    const product: Product
    const tracker: SequenceTracker
    const reconstructor: BookReconstructor
    const heatmap: HeatmapHistory
    var status: LiveStatus
    var lastEmitted: Option<int>
    var nextIndex: nat
    var peak: real

    constructor (cfg: EngineConfig)
      requires cfg.heatmap.Valid()
      ensures Valid() && Config() == cfg && State() == InitialEngine(cfg)
      ensures fresh(tracker) && fresh(reconstructor) && fresh(reconstructor.book) && fresh(heatmap)
    {
      product := cfg.product;
      tracker := new SequenceTracker();
      reconstructor := new BookReconstructor();
      heatmap := new HeatmapHistory(cfg.heatmap);
      status, lastEmitted, nextIndex, peak := AwaitingSnapshot, None, 0, 0.0;
    }

    function Config(): EngineConfig {
      EngineConfig(product, heatmap.config)
    }

    ghost function Repr(): set<object> {
      {this, tracker, reconstructor, reconstructor.book, heatmap}
    }

    function State(): EngineState
      reads Repr()
    {
      EngineState(tracker.last, reconstructor.State(), heatmap.State(), status, lastEmitted, nextIndex, peak)
    }

    ghost predicate Valid()
      reads Repr()
    {
      heatmap.Valid() && CanReplace(State())
    }

    method SetStatus(next: LiveStatus) returns (change: Option<LiveStatus>)
      modifies this`status
      ensures status == next && change == if old(status) == next then None else Some(next)
    {
      if status == next {
        return None;
      }
      status := next;
      return Some(next);
    }

    method RaisePeak(quantities: seq<real>)
      modifies this`peak
      ensures peak == PeakOf(old(peak), quantities)
    {
      for i := 0 to |quantities|
        invariant peak == PeakOf(old(peak), quantities[..i])
      {
        peak := Max(peak, quantities[i]);
        assert quantities[..i + 1][..i] == quantities[..i];
      }
      assert quantities[..|quantities|] == quantities;
    }

    method AddColumn(column: HeatmapColumn, replacing: bool) returns (update: ColumnUpdate)
      requires replacing ==> nextIndex > 0
      modifies this`peak, this`nextIndex, this`lastEmitted
      ensures update == ColumnUpdate(if replacing then old(nextIndex) - 1 else old(nextIndex), replacing, column)
      ensures nextIndex == (if replacing then old(nextIndex) else old(nextIndex) + 1)
      ensures peak == ColumnPeak(old(peak), column) && lastEmitted == Some(column.timestamp)
    {
      var index := nextIndex;
      if replacing {
        index := nextIndex - 1;
      } else {
        nextIndex := nextIndex + 1;
      }
      RaisePeak(column.bids);
      RaisePeak(column.asks);
      lastEmitted := Some(column.timestamp);
      return ColumnUpdate(index, replacing, column);
    }

    /** The filtering loop: every column newer than the last emitted one becomes a message. */
    method AddNewer(columns: Columns, time: Option<int>) returns (updates: seq<ColumnUpdate>)
      modifies this`peak, this`nextIndex, this`lastEmitted
      ensures updates == Numbered(Newer(columns, time), old(nextIndex))
      ensures nextIndex == old(nextIndex) + |Newer(columns, time)|
      ensures peak == ColumnsPeak(old(peak), Newer(columns, time))
      ensures lastEmitted == LastTime(old(lastEmitted), Newer(columns, time))
    {
      updates := [];
      for i := 0 to |columns|
        invariant updates == Numbered(Newer(columns[..i], time), old(nextIndex))
        invariant nextIndex == old(nextIndex) + |Newer(columns[..i], time)|
        invariant peak == ColumnsPeak(old(peak), Newer(columns[..i], time))
        invariant lastEmitted == LastTime(old(lastEmitted), Newer(columns[..i], time))
      {
        ghost var done := Newer(columns[..i], time);
        NewerSnoc(columns, i, time);
        if time.None? || columns[i].timestamp > time.value {
          AddedSnoc(done, columns[i], old(nextIndex), old(peak), old(lastEmitted));
          var update := AddColumn(columns[i], false);
          updates := updates + [update];
        }
      }
      assert columns[..|columns|] == columns;
    }

    method CollectColumns() returns (updates: seq<ColumnUpdate>)
      requires Valid()
      modifies this`peak, this`nextIndex, this`lastEmitted
      ensures Valid() && State() == AfterCollecting(old(State())) && updates == Collected(old(State()))
    {
      var columns := heatmap.columns;
      if columns == [] {
        return [];
      }
      if lastEmitted == Some(columns[|columns| - 1].timestamp) {
        var update := AddColumn(columns[|columns| - 1], true);
        return [update];
      }
      updates := AddNewer(columns, lastEmitted);
    }

    method SampleBook(timestamp: int, book: Book) returns (r: Result<EngineResult, EngineError>)
      requires Valid()
      modifies heatmap, this`status, this`peak, this`nextIndex, this`lastEmitted
      ensures Valid()
      ensures Step(State(), r) == SampleAndCollect(Config(), old(State()), timestamp, book)
    {
      var outcome := heatmap.Sample(timestamp, book);
      if outcome == OutOfOrder || outcome == BadMidpoint {
        return Failure(SampleFailed(outcome));
      }
      if outcome == NotSampled {
        return Success(NOTHING);
      }
      var change := SetStatus(LiveNow);
      var columns := CollectColumns();
      return Success(EngineResult(change, columns));
    }

    method Process(parsed: Option<ParsedMessage>) returns (r: Result<EngineResult, EngineError>)
      requires Valid()
      modifies Repr()
      ensures Valid()
      ensures Step(State(), r) == ProcessRaw(Config(), old(State()), parsed)
    {
      if parsed.None? {
        return Failure(Unparsable);
      }
      var message := parsed.value;
      var sequence := tracker.Observe(message.number);
      if message.book.None? {
        return Success(NOTHING);
      }
      var m := message.book.value;
      if m.product != product {
        return Failure(WrongProduct);
      }
      var change := None;
      if sequence.status == Gap {
        reconstructor.MarkDesynchronized();
        heatmap.MarkDiscontinuity();
        if !m.kind.SnapshotMessage? {
          change := SetStatus(SequenceGap);
        }
      }
      var applied := reconstructor.Process(m, sequence.status);
      if applied && m.kind.SnapshotMessage? && sequence.status == Gap {
        tracker.Reset();
        sequence := tracker.Observe(message.number);
      }
      if !applied {
        return Success(EngineResult(change, []));
      }
      r := SampleBook(m.timestamp, reconstructor.book.Contents());
    }

    method BeginRecovery() returns (r: EngineResult)
      requires Valid()
      modifies tracker, reconstructor, heatmap`carryForward, this`status
      ensures Valid()
      ensures Step(State(), r) == Recovery(old(State()))
    {
      tracker.Reset();
      reconstructor.MarkDesynchronized();
      heatmap.MarkDiscontinuity();
      var change := SetStatus(AwaitingSnapshot);
      return EngineResult(change, []);
    }

    method ProcessTrustedEvent(e: TrustedBookEvent) returns (r: Result<EngineResult, EngineError>)
      requires Valid()
      modifies Repr()
      ensures Valid()
      ensures Step(State(), r) == ProcessTrusted(Config(), old(State()), e)
    {
      if e.market.product != product {
        return Failure(WrongProduct);
      }
      if e.kind.Invalidated? {
        var recovery := BeginRecovery();
        return Success(recovery);
      }
      if e.kind.Update? && status == AwaitingSnapshot {
        return Success(NOTHING);
      }
      if e.book.None? {
        return Failure(NoBookState);
      }
      r := SampleBook(e.timestamp, e.book.value);
    }
  }

  function LastTime(before: Option<int>, columns: Columns): Option<int> {
    if columns == [] then before else Some(columns[|columns| - 1].timestamp)
  }

  lemma {:induction false} NewerSnoc(columns: Columns, i: nat, time: Option<int>)
    requires i < |columns|
    ensures Newer(columns[..i + 1], time)
      == if time.None? || columns[i].timestamp > time.value then Newer(columns[..i], time) + [columns[i]]
         else Newer(columns[..i], time)
  {
    assert columns[..i + 1][..i] == columns[..i];
  }

  lemma {:induction false} AddedSnoc(done: Columns, c: HeatmapColumn, index: nat, peak: real, emitted: Option<int>)
    ensures Numbered(done + [c], index) == Numbered(done, index) + [ColumnUpdate(index + |done|, false, c)]
    ensures ColumnsPeak(peak, done + [c]) == ColumnPeak(ColumnsPeak(peak, done), c)
    ensures LastTime(emitted, done + [c]) == Some(c.timestamp)
  {
    assert (done + [c])[..|done|] == done;
  }
}
