/**
 The Kraken book adapter: one message is read completely, applied to a copy and
 checked before it replaces the trusted book; any failure discards the book.
 The Boost.JSON view of a message comes in beside its raw text.
 */
module KrakenAdapter {
  import opened Wrappers
  import opened Decimals
  import opened OrderBooks
  import opened VenueEvents
  import opened JsonScanner
  import opened KrakenLevels
  import opened KrakenBook
  import opened KrakenOutputs

  /** The parsed payload; a missing or mistyped member is `None`, and a level is true when it has both members. */
  datatype BookData = BookData(
    symbol: Option<string>, asks: Option<seq<bool>>, bids: Option<seq<bool>>,
    checksum: Option<int>, timestamp: Option<int>)

  datatype ParsedMessage =
    | NotAnObject
    | OtherChannel
    | BookMessage(kind: Option<string>, data: Option<BookData>)

  datatype AdapterConfig = AdapterConfig(
    product: Product, symbol: string, depth: BookDepth, crc: string -> int, convert: Conversion)

  datatype AdapterState = AdapterState(sides: Sides, status: VenueMarketStatus, lastTimestamp: int)

  // ---------- Reading one side ----------

  function ReadChange(entry: string, hasMembers: bool): Option<Change> {
    match (EntryMember(entry, "price"), EntryMember(entry, "qty"))
    case (Some(price), Some(quantity)) =>
      if hasMembers && ValidChange(Change(price, quantity)) then Some(Change(price, quantity)) else None
    case _ => None
  }

  function ReadChanges(entries: seq<string>, parsed: seq<bool>, allowDeletion: bool): Option<seq<Change>>
    requires |entries| == |parsed|
  {
    if entries == [] then Some([])
    else Before(ReadChange(entries[0], parsed[0]), ReadChanges(entries[1..], parsed[1..], allowDeletion), allowDeletion)
  }

  function Before(first: Option<Change>, more: Option<seq<Change>>, allowDeletion: bool): Option<seq<Change>> {
    match (first, more)
    case (Some(c), Some(changes)) => if Deletes(c) && !allowDeletion then None else Some([c] + changes)
    case _ => None
  }

  function Continued(done: seq<Change>, more: Option<seq<Change>>): Option<seq<Change>> {
    match more case None => None case Some(changes) => Some(done + changes)
  }

  function ReadArray(text: string, parsed: seq<bool>, allowDeletion: bool): Option<seq<Change>> {
    match Split(text)
    case None => None
    case Some(entries) => if |entries| == |parsed| then ReadChanges(entries, parsed, allowDeletion) else None
  }

  function ReadSide(raw: string, field: string, parsed: Option<seq<bool>>, allowDeletion: bool): Option<seq<Change>> {
    match (parsed, FindArray(raw, field))
    case (Some(flags), Some(text)) => ReadArray(text, flags, allowDeletion)
    case _ => None
  }

  lemma {:induction false} ReadChangesAreValid(entries: seq<string>, parsed: seq<bool>, allowDeletion: bool)
    requires |entries| == |parsed| && ReadChanges(entries, parsed, allowDeletion).Some?
    ensures var changes := ReadChanges(entries, parsed, allowDeletion).value;
      |changes| == |entries| && ValidChanges(changes) && (!allowDeletion ==> NoDeletions(changes))
  {
    if entries != [] {
      ReadChangesAreValid(entries[1..], parsed[1..], allowDeletion);
    }
  }

  lemma {:induction false} ContinuedStep(done: seq<Change>, c: Change, more: Option<seq<Change>>, allowDeletion: bool)
    requires !Deletes(c) || allowDeletion
    ensures Continued(done, Before(Some(c), more, allowDeletion)) == Continued(done + [c], more)
  {
    if more.Some? {
      assert done + ([c] + more.value) == done + [c] + more.value;
    }
  }

  // ---------- One message ----------

  datatype Attempt = Ignored | Rejected | Accepted(batch: Batch)

  /** Both sides, then checksum and timestamp. */
  function Complete(
      snapshot: bool, asks: Option<seq<Change>>, bids: Option<seq<Change>>, data: BookData): Option<Batch> {
    match (asks, bids, data.checksum, data.timestamp)
    case (Some(asks), Some(bids), Some(checksum), Some(timestamp)) =>
      Some(Batch(snapshot, asks, bids, checksum, timestamp))
    case _ => None
  }

  function ReadBatch(raw: string, snapshot: bool, data: BookData): Option<Batch> {
    Complete(snapshot, ReadSide(raw, "asks", data.asks, !snapshot), ReadSide(raw, "bids", data.bids, !snapshot), data)
  }

  predicate MatchesChecksum(cfg: AdapterConfig, s: Sides, checksum: int) {
    0 <= checksum < 0x1_0000_0000 && cfg.crc(ChecksumInput(s)) == checksum
  }

  /** Whether a complete batch may replace the trusted book. */
  predicate Trustworthy(cfg: AdapterConfig, sides: Sides, b: Batch) {
    var next := ApplyBatch(sides, b, cfg.depth);
    && (b.snapshot ==> b.asks != [] && b.bids != [])
    && MatchesChecksum(cfg, next, b.checksum)
    && NumericBook(next, cfg.convert).Some?
  }

  /** The decision on a book message, once its sides have been read. */
  function Judge(
      cfg: AdapterConfig, s: AdapterState, kind: Option<string>, data: Option<BookData>, read: Option<Batch>): Attempt {
    if kind != Some("snapshot") && kind != Some("update") then Rejected
    else if kind == Some("update") && s.status != Live then Ignored
    else if data.None? || data.value.symbol != Some(cfg.symbol) then Rejected
    else match read
      case None => Rejected
      case Some(b) => if Trustworthy(cfg, s.sides, b) then Accepted(b) else Rejected
  }

  function Decide(cfg: AdapterConfig, s: AdapterState, raw: string, m: ParsedMessage): Attempt {
    match m
    case NotAnObject => Rejected
    case OtherChannel => Ignored
    case BookMessage(kind, None) => Judge(cfg, s, kind, None, None)
    case BookMessage(kind, Some(data)) =>
      Judge(cfg, s, kind, Some(data), ReadBatch(raw, kind == Some("snapshot"), data))
  }

  function After(cfg: AdapterConfig, s: AdapterState, a: Attempt): AdapterState {
    match a
    case Ignored => s
    case Rejected => AdapterState(NO_LEVELS, Stale, s.lastTimestamp)
    case Accepted(b) => AdapterState(ApplyBatch(s.sides, b, cfg.depth), Live, b.timestamp)
  }

  function EventFor(cfg: AdapterConfig, s: AdapterState, a: Attempt): Option<TrustedBookEvent> {
    var market := MarketKey(Kraken, cfg.product);
    match a
    case Ignored => None
    case Rejected => Some(TrustedBookEvent(Invalidated, market, s.lastTimestamp, None))
    case Accepted(b) =>
      Some(TrustedBookEvent(
        if b.snapshot then Snapshot else Update, market, b.timestamp,
        NumericBook(ApplyBatch(s.sides, b, cfg.depth), cfg.convert)))
  }

  const INITIAL_ADAPTER := AdapterState(NO_LEVELS, WaitingForSnapshot, 0)

  datatype NextBook = NextBook(sides: Sides, timestamp: int, book: Book)

  function CheckNext(cfg: AdapterConfig, next: Sides, data: BookData): Option<NextBook> {
    match (data.checksum, data.timestamp, NumericBook(next, cfg.convert))
    case (Some(checksum), Some(timestamp), Some(book)) =>
      if MatchesChecksum(cfg, next, checksum) then Some(NextBook(next, timestamp, book)) else None
    case _ => None
  }

  function BuildNext(cfg: AdapterConfig, sides: Sides, read: Option<Batch>): Option<NextBook> {
    match read
    case None => None
    case Some(b) =>
      var next := ApplyBatch(sides, b, cfg.depth);
      if Trustworthy(cfg, sides, b) then Some(NextBook(next, b.timestamp, NumericBook(next, cfg.convert).value))
      else None
  }

  /** Checking the sides one after the other, checksum before timestamp, comes to the same. */
  lemma {:induction false} BuildInSteps(
      cfg: AdapterConfig, sides: Sides, snapshot: bool, asks: seq<Change>, bids: seq<Change>, data: BookData)
    ensures BuildNext(cfg, sides, Complete(snapshot, Some(asks), Some(bids), data))
      == if snapshot && (asks == [] || bids == []) then None
         else CheckNext(cfg, ApplyBatch(sides, Batch(snapshot, asks, bids, 0, 0), cfg.depth), data)
  {}

  /** A snapshot side has levels exactly when it lists any. */
  lemma {:induction false} SnapshotSidesEmpty(raw: string, field: string, parsed: Option<seq<bool>>, snapshot: bool)
    ensures var changes := ReadSide(raw, field, parsed, !snapshot);
      snapshot && changes.Some? ==> (ApplyChanges([], changes.value) == [] <==> changes.value == [])
  {
    var changes := ReadSide(raw, field, parsed, !snapshot);
    if snapshot && changes.Some? {
      ReadChangesAreValid(Split(FindArray(raw, field).value).value, parsed.value, false);
      InsertionsGrow([], changes.value);
    }
  }

  lemma {:induction false} InsertionsGrow(es: LevelMap, cs: seq<Change>)
    requires NoDeletions(cs)
    ensures cs != [] || es != [] ==> ApplyChanges(es, cs) != []
    ensures cs == [] ==> ApplyChanges(es, cs) == es
  {
    if cs != [] {
      var c := cs[|cs| - 1];
      assert !Deletes(c);
    }
  }

  class KrakenBookAdapter {
    const cfg: AdapterConfig
    var bids: LevelMap
    var asks: LevelMap
    var status: VenueMarketStatus
    var lastTimestamp: int

    constructor (cfg: AdapterConfig)
      ensures this.cfg == cfg && State() == INITIAL_ADAPTER
    {
      this.cfg := cfg;
      bids, asks, status, lastTimestamp := [], [], WaitingForSnapshot, 0;
    }

    function State(): AdapterState
      reads this
    {
      AdapterState(Sides(bids, asks), status, lastTimestamp)
    }

    /** The lambda `apply`: every raw level is read and applied in turn. */
    method ApplyLevels(rawArray: string, parsed: seq<bool>, levels: LevelMap, allowDeletion: bool)
        returns (next: Option<LevelMap>, ghost changes: seq<Change>)
      ensures next.Some? <==>
        Split(rawArray).Some? && |Split(rawArray).value| == |parsed|
        && ReadChanges(Split(rawArray).value, parsed, allowDeletion) == Some(changes)
      ensures next.None? && Split(rawArray).Some? && |Split(rawArray).value| == |parsed| ==>
        ReadChanges(Split(rawArray).value, parsed, allowDeletion) == None
      ensures next.Some? ==> next.value == ApplyChanges(levels, changes)
    {
      changes := [];
      var updates := SplitObjectArray(rawArray);
      if updates.None? || |updates.value| != |parsed| {
        return None, changes;
      }
      var entries := updates.value;
      var result := levels;
      ghost var all := ReadChanges(entries, parsed, allowDeletion);
      assert entries[0..] == entries && parsed[0..] == parsed;
      assert forall more: seq<Change> :: [] + more == more;
      for index := 0 to |entries|
        invariant all == Continued(changes, ReadChanges(entries[index..], parsed[index..], allowDeletion))
        invariant result == ApplyChanges(levels, changes)
      {
        var change := ReadLevel(entries[index], parsed[index]);
        assert entries[index..][1..] == entries[index + 1..] && parsed[index..][1..] == parsed[index + 1..];
        if change.None? || (Deletes(change.value) && !allowDeletion) {
          return None, changes;
        }
        ContinuedStep(changes, change.value, ReadChanges(entries[index + 1..], parsed[index + 1..], allowDeletion),
          allowDeletion);
        result := ApplyChange(result, change.value);
        assert (changes + [change.value])[..|changes|] == changes;
        changes := changes + [change.value];
      }
      assert changes + [] == changes;
      return Some(result), changes;
    }

    method ReadLevel(entry: string, hasMembers: bool) returns (change: Option<Change>)
      ensures change == ReadChange(entry, hasMembers)
    {
      var price := DecimalMember(entry, "price");
      if !hasMembers || price.None? {
        return None;
      }
      var parsedPrice := ParseDecimal(price.value, false);
      if parsedPrice.Failure? {
        return None;
      }
      var quantity := DecimalMember(entry, "qty");
      if quantity.None? {
        return None;
      }
      var parsedQuantity := ParseDecimal(quantity.value, true);
      if parsedQuantity.Failure? {
        return None;
      }
      return Some(Change(parsedPrice.value.text, parsedQuantity.value.text));
    }

    method Invalidation() returns (event: TrustedBookEvent)
      modifies this
      ensures State() == After(cfg, old(State()), Rejected)
      ensures Some(event) == EventFor(cfg, old(State()), Rejected)
    {
      bids, asks, status := [], [], Stale;
      return TrustedBookEvent(Invalidated, MarketKey(Kraken, cfg.product), lastTimestamp, None);
    }

    method Reset()
      modifies this
      ensures State() == INITIAL_ADAPTER
    {
      bids, asks, status, lastTimestamp := [], [], WaitingForSnapshot, 0;
    }

    /** One side: find its array in the raw text and apply it to a copy of the levels. */
    method NextSide(raw: string, field: string, parsed: Option<seq<bool>>, levels: LevelMap, allowDeletion: bool)
        returns (next: Option<LevelMap>)
      ensures var changes := ReadSide(raw, field, parsed, allowDeletion);
        next == if changes.None? then None else Some(ApplyChanges(levels, changes.value))
    {
      if parsed.None? {
        return None;
      }
      var text := FindMemberArray(raw, field);
      if text.None? {
        return None;
      }
      ghost var changes;
      next, changes := ApplyLevels(text.value, parsed.value, levels, allowDeletion);
    }

    /** Checksum, timestamp and numeric conversion of the truncated sides. */
    method Check(keptBids: LevelMap, keptAsks: LevelMap, data: BookData) returns (next: Option<NextBook>)
      ensures next == CheckNext(cfg, Sides(keptBids, keptAsks), data)
    {
      var input := ChecksumInputFor(keptBids, keptAsks);
      if data.checksum.None? || !(0 <= data.checksum.value < 0x1_0000_0000) {
        return None;
      }
      if cfg.crc(input) != data.checksum.value || data.timestamp.None? {
        return None;
      }
      var book := NumericBookFor(keptBids, keptAsks, cfg.convert);
      if book.None? {
        return None;
      }
      return Some(NextBook(Sides(keptBids, keptAsks), data.timestamp.value, book.value));
    }

    /** Everything between reading the symbol and replacing the book. */
    method Build(raw: string, snapshot: bool, data: BookData) returns (next: Option<NextBook>)
      ensures next == BuildNext(cfg, State().sides, ReadBatch(raw, snapshot, data))
    {
      var fromBids := if snapshot then [] else bids;
      var fromAsks := if snapshot then [] else asks;
      var nextAsks := NextSide(raw, "asks", data.asks, fromAsks, !snapshot);
      if nextAsks.None? {
        return None;
      }
      var nextBids := NextSide(raw, "bids", data.bids, fromBids, !snapshot);
      if nextBids.None? {
        return None;
      }
      SnapshotSidesEmpty(raw, "asks", data.asks, snapshot);
      SnapshotSidesEmpty(raw, "bids", data.bids, snapshot);
      BuildInSteps(
        cfg, State().sides, snapshot, ReadSide(raw, "asks", data.asks, !snapshot).value,
        ReadSide(raw, "bids", data.bids, !snapshot).value, data);
      if snapshot && (nextAsks.value == [] || nextBids.value == []) {
        return None;
      }
      var keptAsks := TruncateAsks(nextAsks.value, cfg.depth);
      var keptBids := TruncateBids(nextBids.value, cfg.depth);
      next := Check(keptBids, keptAsks, data);
    }

    method Process(raw: string, m: ParsedMessage) returns (event: Option<TrustedBookEvent>)
      modifies this
      ensures State() == After(cfg, old(State()), Decide(cfg, old(State()), raw, m))
      ensures event == EventFor(cfg, old(State()), Decide(cfg, old(State()), raw, m))
    {
      if m.OtherChannel? {
        return None;
      }
      if m.NotAnObject? || (m.kind != Some("snapshot") && m.kind != Some("update")) {
        var failed := Invalidation();
        return Some(failed);
      }
      var snapshot := m.kind == Some("snapshot");
      if !snapshot && status != Live {
        return None;
      }
      if m.data.None? || m.data.value.symbol != Some(cfg.symbol) {
        var failed := Invalidation();
        return Some(failed);
      }
      var next := Build(raw, snapshot, m.data.value);
      if next.None? {
        var failed := Invalidation();
        return Some(failed);
      }
      bids, asks := next.value.sides.bids, next.value.sides.asks;
      lastTimestamp, status := next.value.timestamp, Live;
      return Some(TrustedBookEvent(
        if snapshot then Snapshot else Update, MarketKey(Kraken, cfg.product), lastTimestamp, Some(next.value.book)));
    }
  }

  // ---------- Whole runs ----------

  datatype Input = Message(raw: string, parsed: ParsedMessage) | ResetCall

  function Step(cfg: AdapterConfig, s: AdapterState, input: Input): AdapterState {
    match input
    case ResetCall => INITIAL_ADAPTER
    case Message(raw, m) => After(cfg, s, Decide(cfg, s, raw, m))
  }

  function Run(cfg: AdapterConfig, inputs: seq<Input>): AdapterState {
    if inputs == [] then INITIAL_ADAPTER else Step(cfg, Run(cfg, inputs[..|inputs| - 1]), inputs[|inputs| - 1])
  }

  function JournalStep(cfg: AdapterConfig, s: AdapterState, j: seq<Batch>, input: Input): seq<Batch> {
    match input
    case ResetCall => []
    case Message(raw, m) =>
      match Decide(cfg, s, raw, m)
      case Ignored => j
      case Rejected => []
      case Accepted(b) => if b.snapshot then [b] else j + [b]
  }

  /** The batches accepted since the last accepted snapshot, emptied by every failure and reset. */
  function Journal(cfg: AdapterConfig, inputs: seq<Input>): seq<Batch> {
    if inputs == [] then []
    else
      var before := inputs[..|inputs| - 1];
      JournalStep(cfg, Run(cfg, before), Journal(cfg, before), inputs[|inputs| - 1])
  }

  predicate StartsWithItsOnlySnapshot(bs: seq<Batch>) {
    bs != [] ==> bs[0].snapshot && forall i :: 0 < i < |bs| ==> !bs[i].snapshot
  }

  lemma {:induction false} DecidedBatchIsValid(cfg: AdapterConfig, s: AdapterState, raw: string, m: ParsedMessage)
    requires Decide(cfg, s, raw, m).Accepted?
    ensures var b := Decide(cfg, s, raw, m).batch;
      ValidBatch(b) && Trustworthy(cfg, s.sides, b) && (!b.snapshot ==> s.status == Live)
  {
    var data := m.data.value;
    var snapshot := m.kind == Some("snapshot");
    ReadChangesAreValid(Split(FindArray(raw, "asks").value).value, data.asks.value, !snapshot);
    ReadChangesAreValid(Split(FindArray(raw, "bids").value).value, data.bids.value, !snapshot);
  }

  predicate Tracks(cfg: AdapterConfig, s: AdapterState, j: seq<Batch>) {
    && (s.status == Live <==> j != [])
    && s.sides == Replay(j, cfg.depth)
    && ValidBatches(j) && StartsWithItsOnlySnapshot(j)
    && (j != [] ==> s.lastTimestamp == j[|j| - 1].timestamp)
  }

  /** The stored sides match the checksum of the newest accepted batch. */
  predicate ChecksumHolds(cfg: AdapterConfig, s: AdapterState, j: seq<Batch>) {
    j != [] ==> MatchesChecksum(cfg, s.sides, j[|j| - 1].checksum)
  }

  lemma {:induction false} AcceptedChecksumHolds(cfg: AdapterConfig, s: AdapterState, j: seq<Batch>, b: Batch)
    requires Trustworthy(cfg, s.sides, b)
    ensures ChecksumHolds(cfg, After(cfg, s, Accepted(b)), if b.snapshot then [b] else j + [b])
  {}

  lemma {:induction false} ReplayNext(j: seq<Batch>, b: Batch, depth: nat)
    ensures Replay(j + [b], depth) == ApplyBatch(Replay(j, depth), b, depth)
    ensures Replay([b], depth) == ApplyBatch(NO_LEVELS, b, depth)
  {
    assert (j + [b])[..|j|] == j && [b][..0] == [];
  }

  lemma {:induction false} SnapshotTracks(cfg: AdapterConfig, s: AdapterState, b: Batch)
    requires ValidBatch(b) && b.snapshot
    ensures Tracks(cfg, After(cfg, s, Accepted(b)), [b])
  {
    ReplayNext([], b, cfg.depth);
    assert ApplyBatch(s.sides, b, cfg.depth) == ApplyBatch(NO_LEVELS, b, cfg.depth);
  }

  lemma {:induction false} JournalSnoc(j: seq<Batch>, b: Batch)
    requires j != [] && ValidBatches(j) && StartsWithItsOnlySnapshot(j) && ValidBatch(b) && !b.snapshot
    ensures ValidBatches(j + [b]) && StartsWithItsOnlySnapshot(j + [b])
  {}

  lemma {:induction false} UpdateTracks(cfg: AdapterConfig, s: AdapterState, j: seq<Batch>, b: Batch)
    requires Tracks(cfg, s, j) && ValidBatch(b) && !b.snapshot && s.status == Live
    ensures Tracks(cfg, After(cfg, s, Accepted(b)), j + [b])
  {
    JournalSnoc(j, b);
    ReplayNext(j, b, cfg.depth);
  }

  lemma {:induction false} AcceptedBatchTracks(cfg: AdapterConfig, s: AdapterState, j: seq<Batch>, b: Batch)
    requires Tracks(cfg, s, j) && ValidBatch(b) && (!b.snapshot ==> s.status == Live)
    ensures Tracks(cfg, After(cfg, s, Accepted(b)), if b.snapshot then [b] else j + [b])
  {
    if b.snapshot {
      SnapshotTracks(cfg, s, b);
    } else {
      UpdateTracks(cfg, s, j, b);
    }
  }

  /**
   In every reachable state the adapter is Live exactly when some batch has been
   accepted since the last failure or reset; its levels are then the replay of those
   batches from their snapshot, and otherwise there are none.
   */
  lemma {:induction false} LiveBookIsReplay(cfg: AdapterConfig, inputs: seq<Input>)
    ensures Tracks(cfg, Run(cfg, inputs), Journal(cfg, inputs))
    ensures ChecksumHolds(cfg, Run(cfg, inputs), Journal(cfg, inputs))
  {
    if inputs != [] {
      var n := |inputs| - 1;
      LiveBookIsReplay(cfg, inputs[..n]);
      var s, j := Run(cfg, inputs[..n]), Journal(cfg, inputs[..n]);
      if inputs[n].Message? && Decide(cfg, s, inputs[n].raw, inputs[n].parsed).Accepted? {
        DecidedBatchIsValid(cfg, s, inputs[n].raw, inputs[n].parsed);
        AcceptedBatchTracks(cfg, s, j, Decide(cfg, s, inputs[n].raw, inputs[n].parsed).batch);
        AcceptedChecksumHolds(cfg, s, j, Decide(cfg, s, inputs[n].raw, inputs[n].parsed).batch);
      }
    }
  }

  /** The same book against the reference maps keyed by exact price, bounded by the depth. */
  lemma {:induction false} LiveBookHoldsExactPrices(cfg: AdapterConfig, inputs: seq<Input>)
    ensures var s, j := Run(cfg, inputs), Journal(cfg, inputs);
      && Holds(s.sides.bids, RefBids(j, cfg.depth)) && |s.sides.bids| <= cfg.depth
      && Holds(s.sides.asks, RefAsks(j, cfg.depth)) && |s.sides.asks| <= cfg.depth
      && (s.status != Live ==> s.sides == NO_LEVELS)
  {
    LiveBookIsReplay(cfg, inputs);
    ReplayHoldsBids(Journal(cfg, inputs), cfg.depth);
    ReplayHoldsAsks(Journal(cfg, inputs), cfg.depth);
  }

  /** A rejected batch leaves no trace, and nothing but an accepted snapshot brings the book back. */
  lemma {:induction false} OnlyASnapshotRestoresTrust(
      cfg: AdapterConfig, s: AdapterState, raw: string, m: ParsedMessage)
    requires s.status != Live && After(cfg, s, Decide(cfg, s, raw, m)).status == Live
    ensures Decide(cfg, s, raw, m).Accepted? && Decide(cfg, s, raw, m).batch.snapshot
    ensures After(cfg, s, Decide(cfg, s, raw, m)).sides == Replay([Decide(cfg, s, raw, m).batch], cfg.depth)
  {
    DecidedBatchIsValid(cfg, s, raw, m);
    var b := Decide(cfg, s, raw, m).batch;
    ReplayNext([], b, cfg.depth);
  }
}
