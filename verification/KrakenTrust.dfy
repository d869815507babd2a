/**
 What the adapter's trust rests on, said without the predicates that decide it: the
 conditions of acceptance one by one, the checksum comparison, and what follows from each.
 */
module KrakenTrust {
  import opened Wrappers
  import opened VenueEvents
  import opened Truncation
  import opened KrakenBook
  import opened KrakenOutputs
  import opened KrakenAdapter

  /** The sides a batch of changes would leave: from nothing for a snapshot, each cut to the depth. */
  function NextSides(cfg: AdapterConfig, s: AdapterState, b: Batch): Sides {
    var bids, asks := if b.snapshot then [] else s.sides.bids, if b.snapshot then [] else s.sides.asks;
    Sides(KeepLast(ApplyChanges(bids, b.bids), cfg.depth), KeepFirst(ApplyChanges(asks, b.asks), cfg.depth))
  }

  /** The message is a readable snapshot or update of the adapter's own symbol with exactly this batch. */
  predicate Carries(cfg: AdapterConfig, raw: string, m: ParsedMessage, b: Batch) {
    && m.BookMessage? && m.data.Some?
    && m.kind == Some(if b.snapshot then "snapshot" else "update")
    && m.data.value.symbol == Some(cfg.symbol)
    && ReadSide(raw, "asks", m.data.value.asks, !b.snapshot) == Some(b.asks)
    && ReadSide(raw, "bids", m.data.value.bids, !b.snapshot) == Some(b.bids)
    && m.data.value.checksum == Some(b.checksum) && m.data.value.timestamp == Some(b.timestamp)
  }

  lemma {:induction false} ReadIff(raw: string, data: BookData, b: Batch)
    ensures ReadBatch(raw, b.snapshot, data) == Some(b) <==>
      && ReadSide(raw, "asks", data.asks, !b.snapshot) == Some(b.asks)
      && ReadSide(raw, "bids", data.bids, !b.snapshot) == Some(b.bids)
      && data.checksum == Some(b.checksum) && data.timestamp == Some(b.timestamp)
  {}

  lemma {:induction false} ReadKeepsKind(raw: string, snapshot: bool, data: BookData)
    ensures ReadBatch(raw, snapshot, data).Some? ==> ReadBatch(raw, snapshot, data).value.snapshot == snapshot
  {}

  lemma {:induction false} NextSidesAre(cfg: AdapterConfig, s: AdapterState, b: Batch)
    ensures NextSides(cfg, s, b) == ApplyBatch(s.sides, b, cfg.depth)
  {}

  /** Acceptance, up to what the batch would leave. */
  predicate Proposed(cfg: AdapterConfig, s: AdapterState, raw: string, m: ParsedMessage, b: Batch) {
    Carries(cfg, raw, m, b) && (b.snapshot || s.status == Live) && Trustworthy(cfg, s.sides, b)
  }

  lemma {:induction false} AcceptedIsProposed(
      cfg: AdapterConfig, s: AdapterState, raw: string, m: ParsedMessage, b: Batch)
    requires Decide(cfg, s, raw, m) == Accepted(b)
    ensures Proposed(cfg, s, raw, m, b)
  {
    ReadKeepsKind(raw, m.kind == Some("snapshot"), m.data.value);
    ReadIff(raw, m.data.value, b);
  }

  lemma {:induction false} ProposedIsAccepted(
      cfg: AdapterConfig, s: AdapterState, raw: string, m: ParsedMessage, b: Batch)
    requires Proposed(cfg, s, raw, m, b)
    ensures Decide(cfg, s, raw, m) == Accepted(b)
  {
    ReadIff(raw, m.data.value, b);
  }

  lemma {:induction false} TrustworthyIff(cfg: AdapterConfig, s: AdapterState, b: Batch)
    ensures Trustworthy(cfg, s.sides, b) <==>
      && (b.snapshot ==> b.asks != [] && b.bids != [])
      && 0 <= b.checksum < 0x1_0000_0000 && cfg.crc(ChecksumInput(NextSides(cfg, s, b))) == b.checksum
      && NumericBook(NextSides(cfg, s, b), cfg.convert).Some?
  {
    NextSidesAre(cfg, s, b);
  }

  /**
   A batch is accepted if and only if the message carries it, it is a snapshot with both
   sides or an update of a Live book, the CRC of the ten best levels it would leave is its
   checksum, and those levels have a numeric book.
   */
  lemma {:induction false} AcceptedIff(cfg: AdapterConfig, s: AdapterState, raw: string, m: ParsedMessage, b: Batch)
    ensures Decide(cfg, s, raw, m) == Accepted(b) <==>
      && Carries(cfg, raw, m, b)
      && (if b.snapshot then b.asks != [] && b.bids != [] else s.status == Live)
      && 0 <= b.checksum < 0x1_0000_0000 && cfg.crc(ChecksumInput(NextSides(cfg, s, b))) == b.checksum
      && NumericBook(NextSides(cfg, s, b), cfg.convert).Some?
  {
    TrustworthyIff(cfg, s, b);
    if Decide(cfg, s, raw, m) == Accepted(b) {
      AcceptedIsProposed(cfg, s, raw, m, b);
    }
    if Proposed(cfg, s, raw, m, b) {
      ProposedIsAccepted(cfg, s, raw, m, b);
    }
  }

  /** Messages of other channels, and updates while there is no trusted book, are ignored; nothing else is. */
  lemma {:induction false} IgnoredIff(cfg: AdapterConfig, s: AdapterState, raw: string, m: ParsedMessage)
    ensures Decide(cfg, s, raw, m) == Ignored <==>
      m.OtherChannel? || (m.BookMessage? && m.kind == Some("update") && s.status != Live)
  {}

  /** A batch that is complete but does not match its checksum costs the book and is reported as an invalidation. */
  lemma {:induction false} WrongChecksumIsRejected(
      cfg: AdapterConfig, s: AdapterState, raw: string, m: ParsedMessage, b: Batch)
    requires Carries(cfg, raw, m, b) && (b.snapshot || s.status == Live)
    requires cfg.crc(ChecksumInput(NextSides(cfg, s, b))) != b.checksum
    ensures Decide(cfg, s, raw, m) == Rejected
    ensures After(cfg, s, Rejected) == AdapterState(Sides([], []), VenueMarketStatus.Stale, s.lastTimestamp)
    ensures EventFor(cfg, s, Rejected)
      == Some(TrustedBookEvent(Invalidated, MarketKey(Kraken, cfg.product), s.lastTimestamp, None))
  {
    var d := Decide(cfg, s, raw, m);
    IgnoredIff(cfg, s, raw, m);
    if d.Accepted? {
      AcceptedIff(cfg, s, raw, m, d.batch);
    }
  }

  /** An accepted batch is reported with its own kind and time, and the numeric book of the sides it leaves. */
  lemma {:induction false} AcceptedIsReported(cfg: AdapterConfig, s: AdapterState, b: Batch)
    ensures After(cfg, s, Accepted(b)) == AdapterState(NextSides(cfg, s, b), Live, b.timestamp)
    ensures EventFor(cfg, s, Accepted(b)) == Some(TrustedBookEvent(
      if b.snapshot then Snapshot else Update, MarketKey(Kraken, cfg.product), b.timestamp,
      NumericBook(NextSides(cfg, s, b), cfg.convert)))
    ensures After(cfg, s, Ignored) == s && EventFor(cfg, s, Ignored) == None
  {}

  // ---------- Every run ----------

  /** The checksum field of the last message that was accepted. */
  function LastField(cfg: AdapterConfig, inputs: seq<Input>): Option<int> {
    if inputs == [] then None
    else
      var before, input := inputs[..|inputs| - 1], inputs[|inputs| - 1];
      if input.Message? && Decide(cfg, Run(cfg, before), input.raw, input.parsed).Accepted? then
        if input.parsed.BookMessage? && input.parsed.data.Some? then input.parsed.data.value.checksum else None
      else LastField(cfg, before)
  }

  /** Whatever the adapter is fed, the CRC of a Live book is the checksum field of the last accepted message. */
  lemma {:induction false} LiveBookHasItsChecksum(cfg: AdapterConfig, inputs: seq<Input>)
    ensures var s := Run(cfg, inputs);
      s.status == Live ==> LastField(cfg, inputs) == Some(cfg.crc(ChecksumInput(s.sides)))
  {
    if inputs != [] {
      var before, input := inputs[..|inputs| - 1], inputs[|inputs| - 1];
      var s := Run(cfg, before);
      LiveBookHasItsChecksum(cfg, before);
      if input.Message? && Decide(cfg, s, input.raw, input.parsed).Accepted? {
        AcceptedIff(cfg, s, input.raw, input.parsed, Decide(cfg, s, input.raw, input.parsed).batch);
      }
    }
  }
}
