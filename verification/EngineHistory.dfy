/**
 What a whole run of the engine leaves, against references that do not use its own
 steps: the calls its window is made of, its status, and the peak of what it reported.
 */
module EngineHistories {
  import opened Wrappers
  import opened OrderBooks
  import opened VenueEvents
  import opened SequenceTrackers
  import opened BookReconstructors
  import opened Truncation
  import opened HeatmapHistories
  import opened HeatmapColumns
  import opened LiveHeatmapEngines
  import opened ColumnMirrors

  // ---------- The calls behind the window ----------

  /** The book messages of the engine's own product. */
  function OwnMessage(cfg: EngineConfig, call: EngineCall): Option<BookMessage> {
    match call
    case RawCall(Some(message)) =>
      if message.book.Some? && message.book.value.product == cfg.product then message.book else None
    case _ => None
  }

  /** The sequence status of a raw message; others have none. */
  function SequenceOf(s: EngineState, call: EngineCall): Option<SequenceStatus> {
    match call
    case RawCall(Some(message)) => Some(Classify(s.tracker, message.number).status)
    case _ => None
  }

  /** A recovery, an invalidation of the product, or a hole in the numbers before a book message of it. */
  predicate Breaks(cfg: EngineConfig, s: EngineState, call: EngineCall) {
    match call
    case RecoveryCall => true
    case TrustedCall(e) => e.market.product == cfg.product && e.kind.Invalidated?
    case RawCall(_) => OwnMessage(cfg, call).Some? && SequenceOf(s, call) == Some(Gap)
  }

  /** The book a call makes the engine sample, with its time. */
  function SampledBook(cfg: EngineConfig, s: EngineState, call: EngineCall): Option<(int, Book)> {
    match call
    case RecoveryCall => None
    case TrustedCall(e) =>
      if e.market.product != cfg.product || e.kind.Invalidated? || e.book.None? then None
      else if e.kind.Update? && s.status == AwaitingSnapshot then None
      else Some((e.timestamp, e.book.value))
    case RawCall(_) =>
      match OwnMessage(cfg, call)
      case None => None
      case Some(m) =>
        var sequence := SequenceOf(s, call).value;
        if m.kind.SnapshotMessage? then
          if sequence == Duplicate || sequence == SequenceStatus.Stale then None
          else Some((m.timestamp, ApplyUpdates(EMPTY_BOOK, m.updates)))
        else if sequence == InOrder && s.reconstruction.synchronized then
          Some((m.timestamp, ApplyUpdates(s.reconstruction.book, m.updates)))
        else None
  }

  /** What one call means to the window: a mark, a sample, or a mark before a sample. */
  function WindowCalls(cfg: EngineConfig, s: EngineState, call: EngineCall): seq<Call> {
    (if Breaks(cfg, s, call) then [DiscontinuityCall] else [])
    + match SampledBook(cfg, s, call)
      case None => []
      case Some((timestamp, book)) => [SampleCall(timestamp, book)]
  }

  function AllWindowCalls(cfg: EngineConfig, calls: seq<EngineCall>): seq<Call>
    requires cfg.heatmap.Valid()
  {
    if calls == [] then []
    else
      var before := calls[..|calls| - 1];
      AllWindowCalls(cfg, before) + WindowCalls(cfg, EngineRun(cfg, before), calls[|calls| - 1])
  }

  lemma {:induction false} RollingSnoc(cfg: HeatmapConfig, calls: seq<Call>, call: Call)
    requires cfg.Valid()
    ensures Rolling(cfg, calls + [call]) == Bound(cfg, HeatmapHistories.Step(cfg, Rolling(cfg, calls), call))
  {
    assert (calls + [call])[..|calls|] == calls;
  }

  lemma {:induction false} RollingIsBounded(cfg: HeatmapConfig, calls: seq<Call>)
    requires cfg.Valid()
    ensures Bound(cfg, Rolling(cfg, calls)) == Rolling(cfg, calls)
  {}

  /** The window after the marks and samples of one call. */
  function After(cfg: HeatmapConfig, h: HistoryState, breaks: bool, sampled: Option<(int, Book)>): HistoryState
    requires cfg.Valid() && PositiveSize(h)
  {
    var marked := if breaks then h.(carryForward := false) else h;
    match sampled
    case None => marked
    case Some((timestamp, book)) => Bound(cfg, HeatmapHistories.Step(cfg, marked, SampleCall(timestamp, book)))
  }

  lemma {:induction false} RollingAfter(
      cfg: HeatmapConfig, calls: seq<Call>, breaks: bool, sampled: Option<(int, Book)>)
    requires cfg.Valid()
    ensures var more := (if breaks then [DiscontinuityCall] else [])
        + match sampled case None => [] case Some((timestamp, book)) => [SampleCall(timestamp, book)];
      Rolling(cfg, calls + more) == After(cfg, Rolling(cfg, calls), breaks, sampled)
  {
    var marks := if breaks then [DiscontinuityCall] else [];
    var marked := calls + marks;
    assert Rolling(cfg, marked) == After(cfg, Rolling(cfg, calls), breaks, None) by {
      if breaks {
        RollingSnoc(cfg, calls, DiscontinuityCall);
        RollingIsBounded(cfg, calls);
      } else {
        assert marked == calls;
      }
    }
    match sampled {
      case None =>
        assert marks + [] == marks;
      case Some((timestamp, book)) =>
        RollingSnoc(cfg, marked, SampleCall(timestamp, book));
        assert calls + (marks + [SampleCall(timestamp, book)]) == marked + [SampleCall(timestamp, book)];
    }
  }

  lemma {:induction false} SampleWindow(cfg: EngineConfig, s: EngineState, timestamp: int, book: Book)
    requires cfg.heatmap.Valid() && PositiveSize(s.history) && CanReplace(s)
    ensures SampleAndCollect(cfg, s, timestamp, book).state.history
      == Bound(cfg.heatmap, HeatmapHistories.Step(cfg.heatmap, s.history, SampleCall(timestamp, book)))
  {}

  /** An own message is applied exactly when its book is sampled, and leaves that book. */
  lemma {:induction false} AppliedIsSampled(cfg: EngineConfig, s: EngineState, number: SequenceNumber, m: BookMessage)
    requires m.product == cfg.product
    ensures var call, sequence := RawCall(Some(ParsedMessage(number, Some(m)))), Classify(s.tracker, number).status;
      var noted := NoteGap(s.(tracker := Advance(s.tracker, number)), sequence, m.kind);
      SampledBook(cfg, s, call)
        == if Applies(noted.reconstruction, m, sequence) then
             Some((m.timestamp, Reconstruct(noted.reconstruction, m, sequence).book))
           else None
  {}

  lemma {:induction false} NotedWindow(cfg: EngineConfig, s: EngineState, number: SequenceNumber, m: BookMessage)
    requires m.product == cfg.product
    ensures var call, sequence := RawCall(Some(ParsedMessage(number, Some(m)))), Classify(s.tracker, number).status;
      var noted := NoteGap(s.(tracker := Advance(s.tracker, number)), sequence, m.kind);
      noted.history == if Breaks(cfg, s, call) then s.history.(carryForward := false) else s.history
  {}

  lemma {:induction false} BookMessageWindow(cfg: EngineConfig, s: EngineState, number: SequenceNumber, m: BookMessage)
    requires Emitting(cfg, s) && m.product == cfg.product
    ensures var call := RawCall(Some(ParsedMessage(number, Some(m))));
      EngineStep(cfg, s, call).state.history
        == After(cfg.heatmap, s.history, Breaks(cfg, s, call), SampledBook(cfg, s, call))
  {
    var sequence := Classify(s.tracker, number).status;
    var noted := NoteGap(s.(tracker := Advance(s.tracker, number)), sequence, m.kind);
    var next := noted.(
      reconstruction := Reconstruct(noted.reconstruction, m, sequence),
      tracker := if m.kind.SnapshotMessage? && sequence == Gap then Some(number) else noted.tracker);
    AppliedIsSampled(cfg, s, number, m);
    NotedWindow(cfg, s, number, m);
    if Applies(noted.reconstruction, m, sequence) {
      SampleWindow(cfg, next, m.timestamp, next.reconstruction.book);
    }
  }

  lemma {:induction false} TrustedWindow(cfg: EngineConfig, s: EngineState, e: TrustedBookEvent)
    requires Emitting(cfg, s)
    ensures EngineStep(cfg, s, TrustedCall(e)).state.history
      == After(cfg.heatmap, s.history, Breaks(cfg, s, TrustedCall(e)), SampledBook(cfg, s, TrustedCall(e)))
  {
    if e.book.Some? {
      SampleWindow(cfg, s, e.timestamp, e.book.value);
    }
  }

  lemma {:induction false} OtherRawWindow(cfg: EngineConfig, s: EngineState, parsed: Option<ParsedMessage>)
    requires Emitting(cfg, s) && OwnMessage(cfg, RawCall(parsed)).None?
    ensures EngineStep(cfg, s, RawCall(parsed)).state.history == s.history
    ensures After(cfg.heatmap, s.history, Breaks(cfg, s, RawCall(parsed)), SampledBook(cfg, s, RawCall(parsed)))
      == s.history
  {}

  lemma {:induction false} RecoveryWindow(cfg: EngineConfig, s: EngineState)
    requires Emitting(cfg, s)
    ensures EngineStep(cfg, s, RecoveryCall).state.history
      == After(cfg.heatmap, s.history, Breaks(cfg, s, RecoveryCall), SampledBook(cfg, s, RecoveryCall))
  {}

  /** A call marks and samples the window exactly as said. */
  ghost predicate MovesWindow(cfg: EngineConfig, s: EngineState, call: EngineCall)
    requires Emitting(cfg, s)
  {
    EngineStep(cfg, s, call).state.history
      == After(cfg.heatmap, s.history, Breaks(cfg, s, call), SampledBook(cfg, s, call))
  }

  lemma {:induction false} StepWindow(cfg: EngineConfig, s: EngineState, call: EngineCall)
    requires Emitting(cfg, s)
    ensures MovesWindow(cfg, s, call)
  {
    if call.RecoveryCall? {
      RecoveryWindow(cfg, s);
    } else if call.TrustedCall? {
      TrustedWindow(cfg, s, call.event);
    } else if OwnMessage(cfg, call).None? {
      OtherRawWindow(cfg, s, call.parsed);
    } else {
      var message := call.parsed.value;
      BookMessageWindow(cfg, s, message.number, message.book.value);
      assert call == RawCall(Some(ParsedMessage(message.number, Some(message.book.value))));
    }
  }

  /**
   Whatever the engine is fed, its window is the rolling window of its samples, marked at
   every recovery, invalidation and gap.
   */
  lemma {:induction false} EngineWindowIsRolling(cfg: EngineConfig, calls: seq<EngineCall>)
    requires cfg.heatmap.Valid()
    ensures EngineRun(cfg, calls).history == Rolling(cfg.heatmap, AllWindowCalls(cfg, calls))
  {
    if calls != [] {
      var before, call := calls[..|calls| - 1], calls[|calls| - 1];
      var s := EngineRun(cfg, before);
      EngineWindowIsRolling(cfg, before);
      StepWindow(cfg, s, call);
      RollingAfter(cfg.heatmap, AllWindowCalls(cfg, before), Breaks(cfg, s, call), SampledBook(cfg, s, call));
    }
  }

  /**
   A break and then a snapshot in a later bucket add one column and nothing else: the
   buckets of the outage are not filled.
   */
  lemma {:induction false} OutageIsNotFilled(
      cfg: EngineConfig, s: EngineState, breaking: EngineCall, e: TrustedBookEvent)
    requires Emitting(cfg, s) && Breaks(cfg, s, breaking) && SampledBook(cfg, s, breaking).None?
    requires e.market.product == cfg.product && e.kind.Snapshot? && e.book.Some? && s.history.columns != []
    requires Observe(cfg.heatmap, s.history, e.timestamp, e.book.value).1 == Sampled
    requires s.history.columns[|s.history.columns| - 1].timestamp < BucketStart(e.timestamp, cfg.heatmap.timeBucket)
    ensures var mid := EngineStep(cfg, s, breaking).state;
      Emitting(cfg, mid) && ColumnOf(cfg.heatmap, mid.history, e.timestamp, e.book.value).Some?
      && EngineStep(cfg, mid, TrustedCall(e)).state.history.columns
         == KeepLast(
              s.history.columns + [ColumnOf(cfg.heatmap, mid.history, e.timestamp, e.book.value).value],
              cfg.heatmap.maxColumns)
  {
    var mid := EngineStep(cfg, s, breaking).state;
    EngineReportsItsWindow(cfg, s, breaking);
    StepWindow(cfg, s, breaking);
    StepWindow(cfg, mid, TrustedCall(e));
    MarkKeepsOutcome(cfg.heatmap, s.history, e.timestamp, e.book.value);
    SampledAlike(cfg.heatmap, mid.history, e.timestamp, e.book.value);
    SampleExtends(cfg.heatmap, mid.history, e.timestamp, e.book.value);
  }

  // ---------- The status ----------

  /** Whether a call adds or replaces a column. */
  predicate Samples(cfg: EngineConfig, s: EngineState, call: EngineCall)
    requires Emitting(cfg, s)
  {
    match SampledBook(cfg, s, call)
    case None => false
    case Some((timestamp, book)) => Observe(cfg.heatmap, s.history, timestamp, book).1 == Sampled
  }

  lemma {:induction false} MarkKeepsOutcome(cfg: HeatmapConfig, h: HistoryState, timestamp: int, book: Book)
    requires cfg.Valid() && PositiveSize(h)
    ensures Observe(cfg, h.(carryForward := false), timestamp, book).1 == Observe(cfg, h, timestamp, book).1
  {}

  lemma {:induction false} MessageStatus(cfg: EngineConfig, s: EngineState, number: SequenceNumber, m: BookMessage)
    requires Emitting(cfg, s)
    ensures var call := RawCall(Some(ParsedMessage(number, Some(m))));
      EngineStep(cfg, s, call).state.status
        == if Samples(cfg, s, call) then LiveNow
           else if Breaks(cfg, s, call) && m.kind.UpdateMessage? then SequenceGap else s.status
  {
    MarkKeepsOutcome(cfg.heatmap, s.history, m.timestamp, ApplyUpdates(EMPTY_BOOK, m.updates));
  }

  /** A column makes the engine Live; a break makes it wait, or notes the gap before an update; all else keeps it. */
  lemma {:induction false} StatusAfterCall(cfg: EngineConfig, s: EngineState, call: EngineCall)
    requires Emitting(cfg, s)
    ensures EngineStep(cfg, s, call).state.status
      == if Samples(cfg, s, call) then LiveNow
         else if !Breaks(cfg, s, call) then s.status
         else match OwnMessage(cfg, call)
           case None => AwaitingSnapshot
           case Some(m) => if m.kind.UpdateMessage? then SequenceGap else s.status
  {
    if call.RawCall? && call.parsed.Some? && call.parsed.value.book.Some? {
      MessageStatus(cfg, s, call.parsed.value.number, call.parsed.value.book.value);
    }
  }

  // ---------- The peak ----------

  /** The columns that the engine has reported so far. */
  function ReportedColumns(cfg: EngineConfig, calls: seq<EngineCall>): Columns
    requires cfg.heatmap.Valid()
  {
    if calls == [] then []
    else
      var before := calls[..|calls| - 1];
      var p := EngineStep(cfg, EngineRun(cfg, before), calls[|calls| - 1]);
      ReportedColumns(cfg, before) + ColumnsOf(Reported(p.result).columns)
  }

  function ColumnsOf(updates: seq<ColumnUpdate>): Columns {
    if updates == [] then [] else ColumnsOf(updates[..|updates| - 1]) + [updates[|updates| - 1].column]
  }

  predicate NoneAbove(quantities: seq<real>, peak: real) {
    forall i :: 0 <= i < |quantities| ==> quantities[i] <= peak
  }

  predicate Covers(peak: real, columns: Columns) {
    forall i :: 0 <= i < |columns| ==> NoneAbove(columns[i].bids, peak) && NoneAbove(columns[i].asks, peak)
  }

  /** The value is a bid or ask quantity of one of the columns. */
  predicate Occurs(x: real, columns: Columns) {
    exists i :: 0 <= i < |columns| && (x in columns[i].bids || x in columns[i].asks)
  }

  predicate IsPeak(peak: real, columns: Columns) {
    Covers(peak, columns) && peak >= 0.0 && (peak == 0.0 || Occurs(peak, columns))
  }

  lemma {:induction false} PeakOfIsMax(peak: real, quantities: seq<real>)
    ensures peak <= PeakOf(peak, quantities) && NoneAbove(quantities, PeakOf(peak, quantities))
    ensures PeakOf(peak, quantities) == peak || PeakOf(peak, quantities) in quantities
  {
    if quantities != [] {
      PeakOfIsMax(peak, quantities[..|quantities| - 1]);
    }
  }

  lemma {:induction false} CoversSnoc(peak: real, higher: real, columns: Columns, c: HeatmapColumn)
    requires Covers(peak, columns) && peak <= higher && NoneAbove(c.bids, higher) && NoneAbove(c.asks, higher)
    ensures Covers(higher, columns + [c])
  {
    var all := columns + [c];
    forall i | 0 <= i < |all| ensures NoneAbove(all[i].bids, higher) && NoneAbove(all[i].asks, higher) {
      if i < |columns| {
        assert NoneAbove(columns[i].bids, peak) && NoneAbove(columns[i].asks, peak);
      }
    }
  }

  lemma {:induction false} OccursSnoc(x: real, columns: Columns, c: HeatmapColumn)
    requires Occurs(x, columns) || x in c.bids || x in c.asks
    ensures Occurs(x, columns + [c])
  {
    var all := columns + [c];
    if Occurs(x, columns) {
      var i :| 0 <= i < |columns| && (x in columns[i].bids || x in columns[i].asks);
      assert all[i] == columns[i];
    } else {
      assert all[|columns|] == c;
    }
  }

  lemma {:induction false} PeakSnoc(peak: real, columns: Columns, c: HeatmapColumn)
    requires IsPeak(peak, columns)
    ensures IsPeak(ColumnPeak(peak, c), columns + [c])
  {
    var half := PeakOf(peak, c.bids);
    var next := ColumnPeak(peak, c);
    PeakOfIsMax(peak, c.bids);
    PeakOfIsMax(half, c.asks);
    CoversSnoc(peak, next, columns, c);
    if next != 0.0 {
      OccursSnoc(next, columns, c);
    }
  }

  lemma {:induction false} UpdatesPeakIsPeak(peak: real, columns: Columns, updates: seq<ColumnUpdate>)
    requires IsPeak(peak, columns)
    ensures IsPeak(UpdatesPeak(peak, updates), columns + ColumnsOf(updates))
  {
    if updates == [] {
      assert columns + [] == columns;
    } else {
      var front, c := updates[..|updates| - 1], updates[|updates| - 1].column;
      UpdatesPeakIsPeak(peak, columns, front);
      PeakSnoc(UpdatesPeak(peak, front), columns + ColumnsOf(front), c);
      assert columns + ColumnsOf(updates) == columns + ColumnsOf(front) + [c];
    }
  }

  /** The peak is the largest quantity of all columns ever reported, or zero. */
  lemma {:induction false} PeakIsLargestReported(cfg: EngineConfig, calls: seq<EngineCall>)
    requires cfg.heatmap.Valid()
    ensures IsPeak(EngineRun(cfg, calls).peak, ReportedColumns(cfg, calls))
  {
    if calls != [] {
      var before, call := calls[..|calls| - 1], calls[|calls| - 1];
      var s := EngineRun(cfg, before);
      PeakIsLargestReported(cfg, before);
      EngineReportsItsWindow(cfg, s, call);
      UpdatesPeakIsPeak(s.peak, ReportedColumns(cfg, before), Reported(EngineStep(cfg, s, call).result).columns);
    }
  }

  // ---------- The tracker ----------

  /** The numbers that count for the tracker: since the last recovery, or from a snapshot taken across a gap. */
  function NumbersSinceReset(cfg: EngineConfig, calls: seq<EngineCall>): seq<SequenceNumber> {
    if calls == [] then []
    else
      var before, call := NumbersSinceReset(cfg, calls[..|calls| - 1]), calls[|calls| - 1];
      match call
      case RecoveryCall => []
      case TrustedCall(e) => if e.market.product == cfg.product && e.kind.Invalidated? then [] else before
      case RawCall(None) => before
      case RawCall(Some(message)) =>
        var m := OwnMessage(cfg, call);
        if m.Some? && m.value.kind.SnapshotMessage?
           && Classify(SequenceTrackers.Position(before), message.number).status == Gap then [message.number]
        else before + [message.number]
  }

  lemma {:induction false} PositionSnoc(ns: seq<SequenceNumber>, n: SequenceNumber)
    ensures SequenceTrackers.Position(ns + [n]) == Advance(SequenceTrackers.Position(ns), n)
    ensures SequenceTrackers.Position([n]) == Some(n)
  {
    assert (ns + [n])[..|ns|] == ns && [n][..0] == [];
  }

  lemma {:induction false} MessageMovesTracker(
      cfg: EngineConfig, s: EngineState, number: SequenceNumber, book: Option<BookMessage>)
    requires Emitting(cfg, s)
    ensures var call := RawCall(Some(ParsedMessage(number, book)));
      var m := OwnMessage(cfg, call);
      EngineStep(cfg, s, call).state.tracker
        == if m.Some? && m.value.kind.SnapshotMessage? && Classify(s.tracker, number).status == Gap then Some(number)
           else Advance(s.tracker, number)
  {}

  /** A recovery forgets the numbers seen before it, so the next number is a first one again. */
  lemma {:induction false} TrackerFollowsNumbers(cfg: EngineConfig, calls: seq<EngineCall>)
    requires cfg.heatmap.Valid()
    ensures EngineRun(cfg, calls).tracker == SequenceTrackers.Position(NumbersSinceReset(cfg, calls))
  {
    if calls != [] {
      var before, call := calls[..|calls| - 1], calls[|calls| - 1];
      TrackerFollowsNumbers(cfg, before);
      if call.RawCall? && call.parsed.Some? {
        MessageMovesTracker(cfg, EngineRun(cfg, before), call.parsed.value.number, call.parsed.value.book);
        PositionSnoc(NumbersSinceReset(cfg, before), call.parsed.value.number);
      }
    }
  }

  // ---------- Results ----------

  /** A call reports the status exactly when it changes. */
  lemma {:induction false} StatusIsReportedIffChanged(cfg: EngineConfig, s: EngineState, call: EngineCall)
    requires Emitting(cfg, s)
    ensures var p := EngineStep(cfg, s, call);
      Reported(p.result).statusChange == if p.state.status == s.status then None else Some(p.state.status)
  {
    if OwnMessage(cfg, call).Some? {
      MessageReportsStatus(cfg, s, call.parsed.value.number, call.parsed.value.book.value);
    } else if call.TrustedCall? {
      TrustedReportsStatus(cfg, s, call.event);
    }
  }

  lemma {:induction false} TrustedReportsStatus(cfg: EngineConfig, s: EngineState, e: TrustedBookEvent)
    requires Emitting(cfg, s)
    ensures var p := ProcessTrusted(cfg, s, e);
      Reported(p.result).statusChange == if p.state.status == s.status then None else Some(p.state.status)
  {}

  lemma {:induction false} MessageReportsStatus(
      cfg: EngineConfig, s: EngineState, number: SequenceNumber, m: BookMessage)
    requires Emitting(cfg, s)
    ensures var p := ProcessBookMessage(cfg, s, number, m);
      Reported(p.result).statusChange == if p.state.status == s.status then None else Some(p.state.status)
  {}

  /** Which calls throw, and why. */
  lemma {:induction false} FailuresAre(cfg: EngineConfig, s: EngineState, call: EngineCall)
    requires Emitting(cfg, s)
    ensures var r := EngineStep(cfg, s, call).result;
      && (r == Failure(Unparsable) <==> call == RawCall(None))
      && (r == Failure(WrongProduct) <==> ForeignProduct(cfg, call))
      && (r == Failure(NoBookState) <==> call.TrustedCall? && LacksBook(cfg, s, call.event))
      && (r.Failure? && r.error.SampleFailed? <==> SampleRefused(cfg, s, call))
  {
    if OwnMessage(cfg, call).Some? {
      MessageFailures(cfg, s, call.parsed.value.number, call.parsed.value.book.value);
    }
  }

  predicate ForeignProduct(cfg: EngineConfig, call: EngineCall) {
    match call
    case RecoveryCall => false
    case TrustedCall(e) => e.market.product != cfg.product
    case RawCall(None) => false
    case RawCall(Some(message)) => message.book.Some? && message.book.value.product != cfg.product
  }

  /** A book event of the product that counts has no book. */
  predicate LacksBook(cfg: EngineConfig, s: EngineState, e: TrustedBookEvent) {
    && e.market.product == cfg.product && !e.kind.Invalidated? && e.book.None?
    && !(e.kind.Update? && s.status == AwaitingSnapshot)
  }

  /** The book to sample is out of order, or its midpoint is not positive. */
  predicate SampleRefused(cfg: EngineConfig, s: EngineState, call: EngineCall)
    requires Emitting(cfg, s)
  {
    match SampledBook(cfg, s, call)
    case None => false
    case Some((timestamp, book)) =>
      var outcome := Observe(cfg.heatmap, s.history, timestamp, book).1;
      outcome == OutOfOrder || outcome == BadMidpoint
  }

  lemma {:induction false} MessageFailures(cfg: EngineConfig, s: EngineState, number: SequenceNumber, m: BookMessage)
    requires Emitting(cfg, s) && m.product == cfg.product
    ensures var call := RawCall(Some(ParsedMessage(number, Some(m))));
      var r := EngineStep(cfg, s, call).result;
      && (r.Failure? ==> r.error.SampleFailed?) && (r.Failure? <==> SampleRefused(cfg, s, call))
  {
    AppliedIsSampled(cfg, s, number, m);
    NotedWindow(cfg, s, number, m);
    if SampledBook(cfg, s, RawCall(Some(ParsedMessage(number, Some(m))))).Some? {
      var (timestamp, book) := SampledBook(cfg, s, RawCall(Some(ParsedMessage(number, Some(m))))).value;
      MarkKeepsOutcome(cfg.heatmap, s.history, timestamp, book);
    }
  }
}
