/** What the raw message stream guarantees about the reconstructed book. */
module RawStreams {
  import opened Wrappers
  import opened SequenceTrackers
  import opened BookReconstructors
  import opened HeatmapHistories
  import opened LiveHeatmapEngines
  import opened ColumnMirrors

  /** The calls a source of raw messages makes. */
  predicate RawOnly(calls: seq<EngineCall>) {
    forall i :: 0 <= i < |calls| ==> !calls[i].TrustedCall?
  }

  /** The messages accepted since the last applied snapshot; empty while there is none to rely on. */
  function NextJournal(cfg: EngineConfig, s: EngineState, j: seq<Entry>, call: EngineCall): seq<Entry> {
    match call
    case TrustedCall(_) => j
    case RecoveryCall => []
    case RawCall(None) => j
    case RawCall(Some(message)) =>
      var e := Entry(message.number, message.book);
      var status := Classify(s.tracker, message.number).status;
      if IsSnapshotOf(e, cfg.product) then
        if status == Duplicate || status == SequenceStatus.Stale then j else [e]
      else if Advances(status) then
        if s.reconstruction.synchronized then j + [e] else []
      else if status == Gap && message.book.Some? && message.book.value.product == cfg.product then []
      else j
  }

  function Journal(cfg: EngineConfig, calls: seq<EngineCall>): seq<Entry>
    requires cfg.heatmap.Valid()
  {
    if calls == [] then []
    else
      var before := calls[..|calls| - 1];
      NextJournal(cfg, EngineRun(cfg, before), Journal(cfg, before), calls[|calls| - 1])
  }

  /** Synchronized means the book is the replay of an unbroken run from a snapshot up to the tracker's position. */
  predicate Follows(cfg: EngineConfig, s: EngineState, j: seq<Entry>) {
    && (s.reconstruction.synchronized ==>
          && UnbrokenSinceSnapshot(cfg.product, j)
          && s.tracker == Some(j[|j| - 1].number)
          && s.reconstruction.book == Replay(cfg.product, j))
    && (s.status == LiveNow ==> s.reconstruction.synchronized)
  }

  lemma {:induction false} MessageFollows(cfg: EngineConfig, s: EngineState, j: seq<Entry>, message: ParsedMessage)
    requires cfg.heatmap.Valid() && PositiveSize(s.history) && CanReplace(s)
    requires Follows(cfg, s, j)
    ensures Follows(cfg, ProcessRaw(cfg, s, Some(message)).state, NextJournal(cfg, s, j, RawCall(Some(message))))
  {
    var e := Entry(message.number, message.book);
    InOrderIsSuccessor(s.tracker, message.number);
    if IsSnapshotOf(e, cfg.product) {
      FreshSnapshot(cfg.product, e);
    } else if s.reconstruction.synchronized && Advances(Classify(s.tracker, message.number).status) {
      UnbrokenSnoc(cfg.product, j, e);
      ReplaySnoc(cfg.product, j, e);
    }
  }

  /**
   After any raw stream, with gaps, duplicates, foreign products, unparsable text and
   recoveries, the synchronized book is exactly the last applied snapshot followed by
   the product's updates among messages whose numbers cover everything up to the
   tracker without a hole; Live implies synchronized.
   */
  lemma {:induction false} SynchronizedBookIsUnbrokenReplay(cfg: EngineConfig, calls: seq<EngineCall>)
    requires cfg.heatmap.Valid() && RawOnly(calls)
    ensures Follows(cfg, EngineRun(cfg, calls), Journal(cfg, calls))
  {
    if calls != [] {
      var before, call := calls[..|calls| - 1], calls[|calls| - 1];
      SynchronizedBookIsUnbrokenReplay(cfg, before);
      var s, j := EngineRun(cfg, before), Journal(cfg, before);
      if call.RawCall? && call.parsed.Some? {
        MessageFollows(cfg, s, j, call.parsed.value);
      }
    }
  }

  predicate Fed(calls: seq<EngineCall>, e: Entry) {
    RawCall(Some(ParsedMessage(e.number, e.message))) in calls
  }

  lemma {:induction false} NextJournalEntry(cfg: EngineConfig, s: EngineState, j: seq<Entry>, call: EngineCall, i: nat)
    requires i < |NextJournal(cfg, s, j, call)|
    ensures var e := NextJournal(cfg, s, j, call)[i];
      (i < |j| && e == j[i]) || call == RawCall(Some(ParsedMessage(e.number, e.message)))
  {}

  lemma {:induction false} FedLater(before: seq<EngineCall>, call: EngineCall, e: Entry)
    requires Fed(before, e) || call == RawCall(Some(ParsedMessage(e.number, e.message)))
    ensures Fed(before + [call], e)
  {}

  lemma {:induction false} LastOfAll<T>(s: seq<T>)
    requires s != []
    ensures s == s[..|s| - 1] + [s[|s| - 1]]
  {}

  /** The unbroken run holds nothing that was not received. */
  lemma {:induction false} JournalWasReceived(cfg: EngineConfig, calls: seq<EngineCall>, i: nat)
    requires cfg.heatmap.Valid() && i < |Journal(cfg, calls)|
    ensures Fed(calls, Journal(cfg, calls)[i])
  {
    var before, call := calls[..|calls| - 1], calls[|calls| - 1];
    var j := Journal(cfg, before);
    var e := Journal(cfg, calls)[i];
    NextJournalEntry(cfg, EngineRun(cfg, before), j, call, i);
    if i < |j| && e == j[i] {
      JournalWasReceived(cfg, before, i);
    }
    LastOfAll(calls);
    FedLater(before, call, e);
  }
}
