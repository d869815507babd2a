# Order-book heatmap: a verified model

This project models the market-data core of the order-book heatmap and scanner and proves what it
promises. Four connected parts are covered.

* **The Kraken trusted book.** Exact decimal texts and their order (`Decimals`), the hand-written
  scanner that recovers wire tokens from JSON text (`JsonText`, `JsonScanner`, `JsonScannerProofs`),
  level maps and truncation (`SortedLevels`, `KrakenLevels`, `KrakenBook`, `PartialBooks`,
  `TruncationLoss`), checksum input and numeric book (`KrakenOutputs`), the trust state machine
  (`KrakenAdapter`, `KrakenTrust`), whole messages from document tree to decision (`KrakenMessages`),
  and the best prices of every event (`KrakenBestPrices`).
* **The heatmap window and its replication to browsers.** Price bins and bin size in exact arithmetic
  (`PriceBins`, `AutomaticBinSize`), the rolling window (`HeatmapHistories`, `HeatmapColumns`), the
  engine (`LiveHeatmapEngines`, `ColumnMirrors`, `EngineHistories`), the hub (`LiveStreams`), the
  browser's handlers (`BrowserClients`, `ClientViews`), the service (`LiveMarketServices`), the whole
  system as steps (`LiveReplication`, `BrowserReports`), and the replay protocol with the same browser
  (`ReplayStreams`).
* **Sequence-gated reconstruction and venue sessions.** Tracker and reconstructor (`SequenceTrackers`,
  `BookReconstructors`), the single-market raw stream (`RawStreams`), the two multi-product sessions and
  what is read from them (`CoinbaseSessions`, `KrakenSessions`, `KrakenReaders`), and their runners
  (`VenueRunners`, `VenueRunnerLoops`, `VenueSinks`).
* **The scanner.** Store, consolidated quote, cached hub and subscribers (`MarketStateStores`,
  `ConsolidatedQuotes`, `Scanners`), fed by both runners at once (`VenueFeeds`), and where every stored
  book comes from (`StoredBooks`, `ConsumedBooks`).

Objects whose methods change their fields are classes here too. Each such method ensures that its new
state is a pure function of the old one; the theorems about whole runs are lemmas about those
functions. The main theorems quantify over all runs: any messages, any interleaving of the atomic
steps, any failure point; the others are about one call, from any state.

Some results say where the code falls short of a simpler promise:

* A browser that reconnects with data keeps it until the hub has a window again or the product is
  switched (`LiveReplication.DrainedBrowserMatchesIff` gives the exact condition).
* A recording with a bin size that is not positive is loaded by the server and refused by the browser
  (`ReplayStreams.WelcomeShown`).
* Updates in the first frame of a Coinbase session are dropped even if that frame brought the product's
  snapshot, and that is exactly when a reader misses anything
  (`CoinbaseSessions.ReadersMissFirstFrameUpdatesIff`).
* The Kraken scanner reads the first array called `asks` or `bids` anywhere in a message; that is the
  payload's own side exactly when it comes first (`KrakenMessages.ScannerFindsOwnSideIff`), and
  `KrakenMessages.EarlierArrayIsRead` shows what happens otherwise.
* A visited level within the rounding tolerance below the end price of a column is in no bin
  (`PriceBins.OnlyTheEdgeIsDropped`); `PriceBins.EdgeLevelIsLost` has such a level for every window with
  a positive tolerance.
* The Kraken book is truncated after every batch, so it can miss levels that the exchange still has.
  A batch loses one exactly when it takes away more kept prices than it puts new ones ahead of some
  cut-off price it does not name (`TruncationLoss.EarlyTruncationHarmlessIff`), and
  `TruncationLoss.InStepIff` says for every run whether its last batch leaves the full book cut to the
  depth. `TruncationLoss.DeletionDoesNotRefill` is a run at every depth that does not.

Abstractions: a double is a `real`, with the rounding tolerance of `stable_floor` as a parameter; the
CRC-32 and the text-to-double conversion are parameters; timestamps are integers; each locked method is
one atomic step; JSON messages are datatypes except where the Kraken scanner works on text; an exception
is a failure result. Sockets and wires are sequences of what they still deliver.

## Model

| member | source | states |
|---|---|---|
| `Decimals.ParseDecimal` | src/kraken_adapter.cpp:126-165 | accepts exactly the decimal texts (no sign, no exponent, digits on both sides of a point, zero only where allowed) and returns the exact value of the text |
| `Decimals.CanonicalPreservesValue` | src/kraken_adapter.cpp:192-230 | the canonical text is canonical and denotes exactly the same rational number |
| `Decimals.CanonicalIsIdempotent` | src/kraken_adapter.cpp:192-230 | a canonical text is its own canonical form |
| `Decimals.CanonicalTextIsValue` | src/kraken_adapter.cpp:192-230 | two decimal texts have the same canonical form if and only if their values are equal |
| `Decimals.CompareExact` | src/kraken_adapter.cpp:232-280 | the digit-by-digit comparison loop computes the comparator |
| `Decimals.ExactDecimalLessIsValueOrder` | src/kraken_adapter.cpp:232-280 | on decimals without leading zeros, canonical ones among them, the comparator holds if and only if the left exact value is smaller |
| `Decimals.ComparatorIsSoundIff` | src/kraken_adapter.cpp:232-280 | a decimal is ordered by value against every decimal without leading zeros if and only if it has no redundant leading zero itself; trailing zeros do no harm |
| `JsonScanner.SkipSpace` | src/kraken_adapter.cpp:282-291 | stops at the first character that is no white space of the C locale |
| `JsonScanner.StringEnd` | src/kraken_adapter.cpp:293-321 | on any text, inside or past its end, the end of the string starting there, or failure |
| `JsonScannerProofs.QuotedEnd` | src/kraken_adapter.cpp:293-321 | for every string of RFC 8259 section 7 followed by anything, exactly its end and its raw contents |
| `JsonScanner.BalancedEnd` | src/kraken_adapter.cpp:323-367 | on any text the bracket-stack loop stops at the matching bracket or fails, never leaving the text |
| `JsonScannerProofs.BalancedEndIsContainerEnd` | src/kraken_adapter.cpp:323-367 | for every printed array or object followed by anything, exactly its end |
| `JsonScanner.FindMemberArray` | src/kraken_adapter.cpp:369-405 | on any text the first quoted name with an array value, as its raw text |
| `JsonScannerProofs.FindMemberArrayIsFirstArray` | src/kraken_adapter.cpp:369-405 | on every printed document, position and text of the first member of that name with an array value, in document order |
| `JsonScanner.SplitObjectArray` | src/kraken_adapter.cpp:407-449 | on any text, the raw entries of a list of objects, or failure |
| `JsonScannerProofs.SplitIsObjectElements` | src/kraken_adapter.cpp:407-449 | on every printed array, its elements character for character if all are objects, otherwise failure |
| `JsonScanner.DecimalMember` | src/kraken_adapter.cpp:451-560 | on any entry, the first scalar or quoted token of the requested member, or failure |
| `JsonScannerProofs.DecimalMemberIsMemberToken` | src/kraken_adapter.cpp:451-560 | on every printed object, the token of the first member of that name, unchanged |
| `KrakenOutputs.ReadChecksumDecimal` | src/kraken_adapter.cpp:587-602 | the point removed and leading zeros dropped, one zero kept |
| `KrakenOutputs.ChecksumDecimalIsDigitRun` | src/kraken_adapter.cpp:587-602 | the checksum text is the digit run of the decimal without leading zeros |
| `KrakenOutputs.ChecksumInputFor` | src/kraken_adapter.cpp:970-994 | the two loops give the top ten asks upwards and the top ten bids downwards |
| `KrakenOutputs.TruncationKeepsChecksumInput` | src/kraken_adapter.cpp:605-612 | for every supported depth truncation leaves the checksum input as it was |
| `KrakenOutputs.ChecksumInputIsTopTen` | src/kraken_adapter.cpp:970-994 | the input spells price and quantity of the ten lowest asks upwards, then of the ten highest bids downwards |
| `KrakenLevels.TruncateAsks` | src/kraken_adapter.cpp:996-1010 | erasing in place keeps exactly the first `depth` entries |
| `KrakenLevels.TruncateBids` | src/kraken_adapter.cpp:996-1010 | erasing in place keeps exactly the last `depth` entries |
| `KrakenLevels.InsertIsPut` | src/kraken_adapter.cpp:866-886 | writing into the text-keyed map is writing into the map keyed by exact price, in price order |
| `KrakenLevels.RemoveIsErase` | src/kraken_adapter.cpp:866-886 | erasing a text key is erasing its exact price |
| `SortedLevels.KeepFirstIsLowest` | src/kraken_adapter.cpp:996-1010 | the kept asks are exactly the `depth` lowest prices, unchanged |
| `SortedLevels.KeepLastIsHighest` | src/kraken_adapter.cpp:996-1010 | the kept bids are exactly the `depth` highest prices, unchanged |
| `KrakenBook.TruncationCommutesWithInsertions` | src/kraken_adapter.cpp:996-1010 | for a batch without deletions, truncating before and after equals truncating only after |
| `KrakenBook.ReplayIsTruncatedFullBook` | src/kraken_adapter.cpp:996-1010 | over any run without deletions the truncated book is the truncation of the full book |
| `PartialBooks.SameBestAfterIff` | src/kraken_adapter.cpp:841-911 | of two books by exact price, one a part of the other, any batch leaves the same best prices if and only if every missing price it does not name has a full depth of prices ahead of it |
| `TruncationLoss.EarlyTruncationHarmlessIff` | src/kraken_adapter.cpp:996-1010 | for any batch and either side, truncating before it too is harmless if and only if every price that was cut off and is not named by the batch gets at least as many new prices ahead of it as kept prices are taken away |
| `TruncationLoss.RewritingIsHarmless` | src/kraken_adapter.cpp:855-888 | deleting a kept price and writing it again in the same batch is harmless |
| `TruncationLoss.OneChangeHarmlessIff` | src/kraken_adapter.cpp:996-1010 | a single change is harmless if and only if it does not delete a kept level while another was cut off |
| `TruncationLoss.InStepIff` | src/kraken_adapter.cpp:841-911 | after any run, in step or not before, a side is the full book's cut to the depth if and only if the last batch is a snapshot or leaves no unnamed missing price with fewer than a depth of prices ahead of it |
| `TruncationLoss.NextBatchStaysInStepIff` | src/kraken_adapter.cpp:841-911 | a side in step stays in step if and only if the batch is a snapshot or replaces the kept prices it takes away ahead of every unnamed cut-off price |
| `TruncationLoss.NextChangeStaysInStepIff` | src/kraken_adapter.cpp:841-911 | the same for an update of one level: it must not delete a kept level while another was cut off |
| `TruncationLoss.DeletionDoesNotRefill` | src/kraken_adapter.cpp:841-911 | at every depth, a snapshot of one ask more than the depth and the deletion of its best ask leave a side that differs from the full book cut to the depth |
| `KrakenBook.ReplayHoldsBids` | src/kraken_adapter.cpp:841-889 | the replayed bids hold exactly the prices of the reference map keyed by exact value |
| `KrakenBook.ReplayHoldsAsks` | src/kraken_adapter.cpp:841-889 | the replayed asks hold exactly the prices of the reference map keyed by exact value |
| `KrakenOutputs.NumericBookFor` | src/kraken_adapter.cpp:1025-1052 | the numeric book is the levels applied in order through the conversion, or failure |
| `KrakenOutputs.NumericBookHoldsImages` | src/kraken_adapter.cpp:1025-1052 | there is a numeric book exactly when every text has an image; each price then has the image of the quantity of the last level of its own side with that image |
| `KrakenBestPrices.NumericBestPrices` | src/kraken_adapter.cpp:1025-1052 | for any monotone conversion that keeps quantities non-zero, its best prices are the images of the exact best prices |
| `KrakenBestPrices.EventBestPrices` | src/kraken_adapter.cpp:797-942 | after any run, the book of every accepted message has as best bid and ask the images of the highest bid and the lowest ask of the reference maps |
| `KrakenAdapter.KrakenBookAdapter.ApplyLevels` | src/kraken_adapter.cpp:841-889 | reads every raw level in turn and applies it, failing as a whole on the first bad one |
| `KrakenAdapter.KrakenBookAdapter.Process` | src/kraken_adapter.cpp:797-942 | new state and event are those of the decision for the message: ignored, rejected with everything discarded, or accepted as a whole |
| `KrakenAdapter.KrakenBookAdapter.Reset` | src/kraken_adapter.cpp:944-955 | back to the initial state |
| `KrakenTrust.AcceptedIff` | src/kraken_adapter.cpp:797-942 | a batch is accepted if and only if the message carries it for the adapter's symbol, it is a snapshot with both sides or an update of a Live book, the CRC of the ten best levels it leaves is its checksum, and those levels convert |
| `KrakenTrust.IgnoredIff` | src/kraken_adapter.cpp:797-822 | messages of other channels and updates without a trusted book are ignored, and nothing else |
| `KrakenTrust.WrongChecksumIsRejected` | src/kraken_adapter.cpp:911-940 | a complete batch whose checksum does not match costs the book and is reported as an invalidation |
| `KrakenTrust.AcceptedIsReported` | src/kraken_adapter.cpp:911-940 | an accepted batch is reported with its own kind and time and the numeric book of the sides it leaves |
| `KrakenTrust.LiveBookHasItsChecksum` | src/kraken_adapter.cpp:911-919 | in every reachable state the CRC of a Live book is the checksum field of the last accepted message |
| `KrakenAdapter.LiveBookIsReplay` | src/kraken_adapter.cpp:797-955 | in every reachable state Live means some batch was accepted since the last failure, the sides are the replay since the snapshot and the checksum matches the last accepted field; otherwise the sides are empty |
| `KrakenAdapter.LiveBookHoldsExactPrices` | src/kraken_adapter.cpp:797-955 | those sides hold exactly the reference prices and never exceed the depth |
| `KrakenAdapter.OnlyASnapshotRestoresTrust` | src/kraken_adapter.cpp:797-942 | nothing but an accepted snapshot leads back to Live, and no rejected batch is in the result |
| `KrakenMessages.ScannerRecoversTokens` | src/kraken_adapter.cpp:369-560 | finder, splitter and extractor together return every price and quantity token of the first array of that name unchanged, or fail |
| `KrakenMessages.ScannerFindsOwnSideIff` | src/kraken_adapter.cpp:891-902 | the text handed on for a side starts at the array of that name in `data[0]` if and only if that is the first array of its name in the message; then it is its text |
| `KrakenMessages.DecidesOnOwnLevels` | src/kraken_adapter.cpp:797-942 | if both sides come first, the decision on the message text is the decision on the payload's own levels, for every message, state and configuration |
| `KrakenMessages.AcceptedAlikeIff` | src/kraken_adapter.cpp:841-902 | a message whose own levels deserve to be accepted is accepted with them if and only if the first array of either name spells the same changes |
| `KrakenMessages.EarlierArrayIsRead` | src/kraken_adapter.cpp:891-902 | any array `asks` in front of the other members is read instead: unless it spells the same changes the batch is not accepted, and if it spells none the book is lost |
| `OrderBooks.OrderBook.Apply` | src/order_book.cpp:11-40 | one level written or, for quantity zero, erased |
| `OrderBooks.BookHoldsLastQuantities` | src/order_book.cpp:11-40 | after any updates every price holds the last quantity written, and nothing after a zero |
| `OrderBooks.Highest` | src/order_book.cpp:52-60 | the largest key of a non-empty side |
| `OrderBooks.Lowest` | src/order_book.cpp:62-70 | the smallest key of a non-empty side |
| `PriceBins.StableFloorBounds` | src/heatmap_history.cpp:14-28 | with a tolerance below one half the stable floor is the floor, or the next integer exactly when the value lies within the tolerance below it |
| `PriceBins.AccumulateLevels` | src/heatmap_history.cpp:30-61 | every write is in bounds and each bin gains the sum of exactly the visited levels of that bin |
| `PriceBins.BinsConserveQuantity` | src/heatmap_history.cpp:30-61 | the bins together hold the quantity of all visited levels whose bin lies in the window |
| `PriceBins.OnlyTheEdgeIsDropped` | src/heatmap_history.cpp:30-61 | a visited level is dropped if and only if it lies within the tolerance below the end price |
| `PriceBins.EdgeLevelIsLost` | src/heatmap_history.cpp:30-61 | in every window with a positive tolerance a single level at a certain price below the end price is visited, and all bins stay empty |
| `PriceBins.BinsHoldEverythingAtZeroTolerance` | src/heatmap_history.cpp:30-61 | at zero tolerance nothing in range is lost |
| `PriceBins.MidpointIsCentred` | src/heatmap_history.cpp:330-334 | the midpoint falls in the centre bin, up to the tolerance |
| `AutomaticBinSize.AutomaticPriceBinSize` | src/heatmap_history.cpp:64-114 | fails for a midpoint that is not positive or for no bins; otherwise the readable size |
| `AutomaticBinSize.ResolvedWithinAThird` | src/heatmap_history.cpp:64-114 | the size is the nearest readable factor times a power of ten and lies between two and four thirds of the raw size |
| `AutomaticBinSize.SpanWithinAThird` | src/heatmap_history.cpp:64-114 | the whole span is within a third of a quarter percent of the midpoint |
| `AutomaticBinSize.AutomaticSizeMonotone` | src/heatmap_history.cpp:64-114 | the size never shrinks when the midpoint grows |
| `HeatmapHistories.BucketStartIsFloor` | src/heatmap_history.cpp:362-375 | the bucket start is the true floor multiple, for negative times too |
| `HeatmapHistories.BucketStartMonotone` | src/heatmap_history.cpp:362-375 | later times never get an earlier bucket |
| `HeatmapHistories.HeatmapHistory.MakeColumn` | src/heatmap_history.cpp:304-360 | no column without both sides; otherwise window, midpoint and both bin vectors of the book |
| `HeatmapColumns.ColumnShowsItsBook` | src/heatmap_history.cpp:304-360 | a column exists exactly when both sides have levels; its midpoint is halfway between the best prices, its centre bin is the midpoint's, and each bin sums the visited levels of its own side with that stable bin |
| `HeatmapColumns.AutomaticColumnSpan` | src/heatmap_history.cpp:64-114 | without a configured size the first column spans the wanted fraction of its midpoint, up to a third |
| `HeatmapHistories.HeatmapHistory.Append` | src/heatmap_history.cpp:377-385 | append with eviction keeps the last columns |
| `HeatmapHistories.HeatmapHistory.Refill` | src/heatmap_history.cpp:240-255 | the clear-and-refill loop leaves the copies that end one bucket before the new column |
| `HeatmapHistories.RefillEqualsCarryingForward` | src/heatmap_history.cpp:235-272 | that window with the new column is exactly what appending every skipped bucket with eviction leaves |
| `HeatmapHistories.HeatmapHistory.CarryGap` | src/heatmap_history.cpp:256-270 | the other loop appends one copy per skipped bucket, with eviction |
| `HeatmapHistories.HeatmapHistory.Place` | src/heatmap_history.cpp:203-273 | the new window is the bounded carry-forward extension; its chronology error is unreachable |
| `HeatmapHistories.HeatmapHistory.Sample` | src/heatmap_history.cpp:162-274 | state and outcome of one sample, including what each failure leaves behind |
| `HeatmapColumns.SampleExtends` | src/heatmap_history.cpp:162-274 | what a sample adds: its column, in place of the newest one of the same bucket, directly after a mark, and otherwise behind copies of the newest column in every skipped bucket |
| `HeatmapColumns.SampleOutcomes` | src/heatmap_history.cpp:162-274 | exactly when a sample makes no column, and what it leaves then |
| `HeatmapHistories.HeatmapHistory.MarkDiscontinuity` | src/heatmap_history.cpp:276-279 | only stops carrying forward |
| `HeatmapHistories.HeatmapHistory.Clear` | src/heatmap_history.cpp:281-287 | back to the initial state |
| `HeatmapHistories.RollingIsLastColumns` | src/heatmap_history.cpp:162-287 | after any run of calls the window is the last `maxColumns` entries of the history that never evicts and never skips |
| `HeatmapHistories.WindowIsSpaced` | src/heatmap_history.cpp:162-274 | window times are bucket multiples, strictly increasing, one bucket apart except where a mark was crossed |
| `HeatmapHistories.MarkMattersIff` | src/heatmap_history.cpp:203-279 | a mark before a sample changes the history if and only if the gap would have been carried forward and the sample skips a bucket; in the newest bucket the sample's own column replaces the newest one all the same |
| `SequenceTrackers.SequenceTracker.Observe` | src/sequence_tracker.cpp:18-46 | classification and new position for every number, with saturation at the largest |
| `SequenceTrackers.InOrderIsSuccessor` | src/sequence_tracker.cpp:7-46 | in order means exactly the successor, and a gap exactly a larger number |
| `SequenceTrackers.OthersAreOld` | src/sequence_tracker.cpp:7-46 | duplicate, stale and first mean exactly that; the number expected is the successor, saturating |
| `SequenceTrackers.AcceptedNumbersAreConsecutive` | src/sequence_tracker.cpp:18-46 | the numbers that move the tracker are consecutive and end at its position |
| `BookReconstructors.BookReconstructor.ApplyMessage` | src/book_reconstructor.cpp:54-65 | the loop applies all updates in order |
| `BookReconstructors.BookReconstructor.Process` | src/book_reconstructor.cpp:3-37 | whether a message is applied, and the book and synchronization it leaves |
| `BookReconstructors.ReconstructionAfter` | src/book_reconstructor.cpp:3-37 | which messages are taken, what each price holds afterwards, and what desynchronizes |
| `LiveHeatmapEngines.LiveHeatmapEngine.Process` | src/live_heatmap_engine.cpp:22-87 | state and result of one raw message, through tracker, reconstructor and window; exceptions are results |
| `LiveHeatmapEngines.LiveHeatmapEngine.ProcessTrustedEvent` | src/live_heatmap_engine.cpp:89-126 | state and result of one trusted event |
| `LiveHeatmapEngines.LiveHeatmapEngine.BeginRecovery` | src/live_heatmap_engine.cpp:128-136 | state and result of a recovery |
| `LiveHeatmapEngines.LiveHeatmapEngine.CollectColumns` | src/live_heatmap_engine.cpp:171-229 | the numbered updates for what changed in the window, the new index, emitted time and peak |
| `EngineHistories.EngineWindowIsRolling` | src/live_heatmap_engine.cpp:22-136 | after any run the window is the rolling window of the books sampled, marked at every recovery, invalidation and gap before a book message |
| `EngineHistories.OutageIsNotFilled` | src/live_heatmap_engine.cpp:128-136 | a break and then a snapshot in a later bucket add one column: the buckets of the outage are not filled |
| `EngineHistories.StatusAfterCall` | src/live_heatmap_engine.cpp:22-169 | the status after every call: Live after a column, waiting or gap after a break, else unchanged |
| `EngineHistories.StatusIsReportedIffChanged` | src/live_heatmap_engine.cpp:158-169 | a call reports the status exactly when it changes |
| `EngineHistories.FailuresAre` | src/live_heatmap_engine.cpp:22-126 | which calls throw, and why |
| `EngineHistories.TrackerFollowsNumbers` | src/live_heatmap_engine.cpp:22-136 | the tracker stands where the numbers since the last recovery, or since a snapshot taken across a gap, leave it |
| `EngineHistories.PeakIsLargestReported` | src/live_heatmap_engine.cpp:171-229 | after any run the peak is the largest bid or ask quantity of all columns ever reported, or zero |
| `ColumnMirrors.EngineReportsItsWindow` | src/live_heatmap_engine.cpp:22-229 | whatever the engine is fed, its updates turn a copy of its window, indices, peak and status into the new ones; a failed call changes none of them |
| `RawStreams.SynchronizedBookIsUnbrokenReplay` | src/live_heatmap_engine.cpp:22-136 | after any raw stream a synchronized book is the last applied snapshot followed by the updates among messages that cover every number up to the tracker; Live implies synchronized |
| `RawStreams.JournalWasReceived` | src/live_heatmap_engine.cpp:22-136 | that unbroken run holds nothing that was not received |
| `LiveStreams.LiveStreamHub.BeginProductSession` | src/live_stream.cpp:90-128 | the next session number, an empty hub, and reset plus state instead of every queue |
| `LiveStreams.LiveStreamSubscriber.Take` | src/live_stream.cpp:130-147 | the oldest message of the queue |
| `LiveStreams.LiveStreamSubscriber.ReplaceQueue` | src/live_stream.cpp:159-172 | the queue is exactly the given messages |
| `LiveStreams.LiveStreamHub.Subscribe` | src/live_stream.cpp:174-186 | a new queue with the snapshot, or with the pending messages while there is none |
| `LiveStreams.LiveStreamHub.MirrorUpdates` | src/live_stream.cpp:222-239 | the mirroring loop, and whether a replacement named another column |
| `LiveStreams.LiveStreamHub.Trim` | src/live_stream.cpp:241-247 | evicts down to the engine's bound |
| `LiveStreams.LiveStreamHub.Publish` | src/live_stream.cpp:188-302 | new hub contents and what every queue receives; for the two failures, what has been mirrored so far, with every queue unchanged |
| `LiveStreams.LiveStreamHub.PublishSourceStatusFor` | src/live_stream.cpp:304-349 | status, detail and error kept by the hub, and the state message for every queue |
| `LiveStreams.LiveStreamHub.PublishErrorFor` | src/live_stream.cpp:351-376 | the error kept for late subscribers and sent to every queue |
| `BrowserClients.BrowserClient.InitializeStream` | web/app.js:362-385 | metadata accepted into an empty window, or refused |
| `BrowserClients.BrowserClient.HandleColumn` | web/app.js:867-912 | append, replace or shift the displayed columns, or one of the sequence errors |
| `BrowserClients.BrowserClient.HandlePlaybackState` | web/app.js:914-956 | position and status, and in replay mode the rewind |
| `BrowserClients.BrowserClient.HandleReset` | web/app.js:842-865 | forget a live product, or only the columns of a replay |
| `BrowserClients.BrowserClient.HandleStreamMessage` | web/app.js:958-994 | dispatch by message type |
| `ClientViews.UpdatesShown` | web/app.js:867-912 | a list of column messages moves the browser exactly as it moves the hub's copy |
| `LiveReplication.SnapshotShown` | src/live_stream.cpp:453-476 | whatever a browser held before, a snapshot makes it show the hub |
| `LiveReplication.PublishTracks` | src/live_stream.cpp:211-302 | publishing the engine's next result never fails and leaves hub and engine in agreement |
| `LiveReplication.ActKeepsValid` | src/live_stream.cpp:90-302 | every step of service, runner, hub, socket and browser keeps the agreement of all three sides |
| `LiveReplication.DrainedBrowsersShowTheHub` | src/live_stream.cpp:211-302 | for every interleaving no publish fails, no browser refuses a message, and a drained browser holds the hub's columns, indices, peak, position and status |
| `LiveReplication.DrainedBrowsersShowTheEngine` | src/live_heatmap_engine.cpp:171-229 | with nothing left to publish that is exactly the engine's window |
| `BrowserReports.DrainedBrowserHoldsThePeak` | src/live_heatmap_engine.cpp:171-229 | and the browser's peak is the largest quantity of all columns that engine ever reported, or zero |
| `BrowserReports.DrainedBrowserShowsTheStatus` | src/live_stream.cpp:304-349 | once the hub has a window a drained browser shows the source status told last, and the book's status instead while that is connected |
| `BrowserReports.LateSubscriberIsToldTheError` | src/live_stream.cpp:351-376 | a new subscriber is told the last error of the current session, unless the source has connected since, at the end of its welcome, and no other |
| `BrowserReports.MetadataDescribesTheWindow` | src/live_stream.cpp:249-302 | in every reachable state the metadata names the hub's first column, its time, the product and the shape |
| `LiveReplication.DrainedBrowserMatchesIff` | web/app.js:1068-1131 | a drained browser matches the hub if and only if the hub has a window or the browser brought no data from an earlier connection |
| `LiveReplication.ReconnectingBrowserKeepsOldData` | src/live_stream.cpp:478-491 | a browser that reconnects with data keeps showing it while the hub has no window |
| `LiveReplication.StaleRunnerChangesNothing` | src/live_stream.cpp:498-502 | after a switch nothing the old session's runner publishes changes the hub or any queue |
| `LiveMarketServices.LiveMarketService.SwitchProduct` | src/live_source.cpp:386-400 | the same product changes nothing; another opens the next session |
| `LiveReplication.EachSessionHasOneEngine` | src/live_source.cpp:333-384 | the session numbers for which an engine is created strictly increase |
| `ReplayStreams.ReplayPlayback.ApplyControl` | src/replay_stream.cpp:200-250 | new playback state for every control; an invalid one changes nothing |
| `ReplayStreams.PlaybackFollowsControls` | src/replay_stream.cpp:200-275 | after any run speed is the last valid one asked for, position counts the columns since the last rewind, and status is paused until started, playing while columns are left, then complete |
| `ReplayStreams.RestartResetsFirst` | src/replay_stream.cpp:200-250 | a restart is answered by a reset that alone empties the browser, then by the state |
| `ReplayStreams.ReplayPlayback.TakeNextColumn` | src/replay_stream.cpp:252-275 | the next column message and state, or nothing |
| `ReplayStreams.ReplayPlayback.IntervalToNext` | src/replay_stream.cpp:288-308 | recorded distance divided by the speed, rounded down but never to zero for a real distance |
| `ReplayStreams.WelcomeShown` | web/app.js:314-343 | the browser accepts a loaded recording exactly when its bin size is positive, which loading does not check |
| `ReplayStreams.ReplayedPrefixIsShown` | src/heatmap_viewer.cpp:381-537 | for any run of controls, due columns and reads a browser that handled everything holds the first `position` columns and never reaches its sequence error |
| `ReplayStreams.PlayAfterCompletionRewinds` | src/replay_stream.cpp:212-221 | playing again after the end sends one state message, which alone empties the browser |
| `CoinbaseSessions.CoinbaseUniverseSession.Read` | src/coinbase_universe_session.cpp:222-240 | pending events first; a session that must reconnect fails; otherwise the next frame |
| `CoinbaseSessions.CoinbaseUniverseSession.ProcessFrameContents` | src/coinbase_universe_session.cpp:242-316 | the reconstructor objects, rejections, queue and reconnect flag after one frame, or the exception |
| `CoinbaseSessions.CoinbaseUniverseSession.InvalidateAll` | src/coinbase_universe_session.cpp:318-335 | every product not rejected is desynchronized and reported once, in order |
| `CoinbaseSessions.SessionSaysItsStream` | src/coinbase_universe_session.cpp:242-335 | each product's trusted events are the replays of its own stream, closed after a gap by one invalidation of every product not rejected |
| `CoinbaseSessions.StreamStartsWithSnapshot` | src/coinbase_universe_session.cpp:284-315 | every update event follows a snapshot of its product in the same session |
| `CoinbaseSessions.AcceptedFramesAreConsecutive` | src/coinbase_universe_session.cpp:275-282 | the frames the streams are taken from have consecutive numbers |
| `CoinbaseSessions.StreamIsFullIff` | src/book_reconstructor.cpp:30-33 | a product's stream has every update that follows a snapshot if and only if the first data frame has no update of it after a snapshot of it; otherwise it is shorter |
| `CoinbaseSessions.ReadersMissFirstFrameUpdatesIff` | src/book_reconstructor.cpp:3-37 | what a reader gets is the full replay, closed after a gap, under exactly that condition |
| `CoinbaseSessions.FirstFrameUpdatesAreDropped` | src/book_reconstructor.cpp:30-33 | an input that shows it: snapshot and update in the first frame are consumed, and the book is the snapshot's |
| `CoinbaseSessions.ReadersSeeTheStream` | src/coinbase_universe_session.cpp:222-316 | the same for what a reader gets before the session fails; events of a frame that throws half way are lost |
| `VenueRunners.NoCoinbaseMarketLiveAsleep` | src/coinbase_universe_session.cpp:447-538 | whatever the connections delivered, no Coinbase market is Live in the store while the runner sleeps |
| `VenueRunners.UnsupportedIsFinal` | src/coinbase_universe_session.cpp:482-499 | once a product is Unsupported no other kind of event about it reaches the sink |
| `VenueFeeds.CoinbaseSinkNeverRefuses` | src/coinbase_universe_session.cpp:501-501 | whatever the store held before, it refuses no event of the runner, at any position of its log |
| `VenueRunnerLoops.PublishRecoveryStatus` | src/coinbase_universe_session.cpp:400-413 | one status event per product not rejected, in order |
| `VenueRunnerLoops.CoinbaseUniverseRunner.Handle` | src/coinbase_universe_session.cpp:472-501 | what one event does to the rejections and the sink, or the exception |
| `VenueRunnerLoops.CoinbaseUniverseRunner.Run` | src/coinbase_universe_session.cpp:447-538 | the nested loops leave exactly the rejections and sink events of the run; wherever a stop request comes, the sink has a beginning of those events |
| `VenueSinks.CoinbaseSinkGetsEverything` | src/coinbase_universe_session.cpp:469-501 | everything a session emits reaches the sink, complete and in order, and the runner remembers exactly its rejections |
| `VenueSinks.CoinbaseConnectionSinks` | src/coinbase_universe_session.cpp:447-538 | each connection adds its session's emissions, then one Disconnected and one Reconnecting for every product not rejected, or finishes when none is left |
| `VenueSinks.CoinbaseFrameThrowsIff` | src/coinbase_universe_session.cpp:242-316 | exactly which frames end a session with an exception |
| `VenueSinks.CoinbaseReadersSeeTheStatuses` | src/coinbase_universe_session.cpp:172-316 | a product's statuses, as read: connecting, waiting, and one unsupported for every rejection taken |
| `KrakenSessions.KrakenUniverseSession.Initialize` | src/kraken_universe_session.cpp:225-268 | the discovery loop: statuses, heartbeats and the instrument acknowledgement are passed over until the catalog is configured; anything else is the exception |
| `KrakenSessions.KrakenUniverseSession.ConfigureFrom` | src/kraken_universe_session.cpp:270-317 | which products are dispatched, which are reported unsupported, or the exception for an ambiguous symbol |
| `KrakenSessions.KrakenUniverseSession.ProcessAcknowledgement` | src/kraken_universe_session.cpp:326-387 | first success while not Live reports waiting; a permanent rejection resets the adapter and reports unsupported |
| `KrakenSessions.KrakenUniverseSession.DispatchBook` | src/kraken_universe_session.cpp:421-451 | the symbol's own adapter object processes the message and no other changes; an invalidation forces a reconnect |
| `KrakenSessions.KrakenUniverseSession.Read` | src/kraken_universe_session.cpp:389-453 | the reading loop |
| `KrakenSessions.AdaptersRunIndependently` | src/kraken_universe_session.cpp:421-451 | however markets interleave, each adapter's state is its own run over its own messages |
| `KrakenReaders.ReadersSeeTheRun` | src/kraken_universe_session.cpp:389-453 | a product's trusted events, as read until the session fails, are exactly what its own adapter says to its own inputs among the frames taken |
| `KrakenReaders.InvalidationEndsSession` | src/kraken_universe_session.cpp:389-453 | nothing is read after an invalidation of any product |
| `KrakenReaders.ReadersSeeTheStatuses` | src/kraken_universe_session.cpp:326-387 | a product's statuses, as read, are those of discovery and then one waiting for the first subscription without a snapshot and one unsupported for every rejection |
| `KrakenReaders.DiscoversFirstInstruments` | src/kraken_universe_session.cpp:225-268 | the catalog is the first frame that is no status, heartbeat or successful acknowledgement, or there is none |
| `KrakenReaders.OpenedDispatchesOnline` | src/kraken_universe_session.cpp:270-317 | a session opens unless two online products share a symbol; it dispatches exactly the online products, reports all connecting and then the others unsupported |
| `KrakenReaders.FrameThrowsIff` | src/kraken_universe_session.cpp:326-453 | exactly which frames end a session with an exception |
| `VenueRunners.NoKrakenMarketLiveAsleep` | src/kraken_universe_session.cpp:555-640 | no Kraken market is Live in the store while the runner sleeps, although a new session erases rejections |
| `VenueFeeds.KrakenSinkNeverRefuses` | src/kraken_universe_session.cpp:603-603 | whatever the store held before, it refuses no event of the runner, at any position of its log |
| `VenueRunnerLoops.KrakenUniverseRunner.Run` | src/kraken_universe_session.cpp:555-640 | the same as for Coinbase, with sessions that own their adapters |
| `VenueSinks.KrakenSinkGetsEverything` | src/kraken_universe_session.cpp:577-603 | everything a session emits reaches the sink, complete and in order; a rejection is forgotten when a new session reports the product connecting |
| `VenueSinks.KrakenConnectionSinks` | src/kraken_universe_session.cpp:555-640 | each connection adds its session's emissions and the recovery statuses |
| `VenueFeeds.PublisherNeverThrows` | src/scanner_state.cpp:51-84 | however the events of both runners interleave, from an agreeing state of the same universe the publisher throws for none of them, and its cache stays the recomputed quotes |
| `VenueFeeds.OtherEventsDoNotMatter` | src/market_state_store.cpp:29-107 | a market's state depends on its own events only |
| `VenueFeeds.CoinbaseWakesBySnapshot` | src/coinbase_universe_session.cpp:447-538 | in any interleaving a market is not Live while its runner sleeps after connection n, and is Live later only after a snapshot of it from the session of a later connection |
| `VenueFeeds.KrakenWakesBySnapshot` | src/kraken_universe_session.cpp:555-640 | the same for Kraken |
| `StoredBooks.CoinbaseBookIsReplay` | src/coinbase_universe_session.cpp:222-316 | in any interleaving of both runners, cut anywhere, the stored book of a Live market is the replay of a beginning of the product's stream in the session its latest event came from |
| `StoredBooks.KrakenBookIsReplay` | src/kraken_universe_session.cpp:389-453 | the same for Kraken: the numeric book of the batches that the product's adapter had accepted since a snapshot, in the session the latest event came from |
| `StoredBooks.StoredStatusIsLatest` | src/market_state_store.cpp:29-107 | a market's latest event decides its stored status: Live with its book after a snapshot, stale without one after an invalidation, otherwise the status told |
| `ConsumedBooks.CoinbaseMarketHoldsItsStream` | src/coinbase_universe_session.cpp:222-316 | a connection read to its end, before recovery: a product is Live exactly when its session has a stream for it, has not rejected it and saw no gap; its stored book is then the replay of the whole stream |
| `ConsumedBooks.KrakenMarketIsItsAdapter` | src/kraken_universe_session.cpp:389-453 | the same for Kraken: each dispatched market is stored exactly as its adapter has it after all its inputs, Live or not, with the same book and time |
| `MarketStateStores.MarketStateStore.Apply` | src/market_state_store.cpp:29-86 | the new states for a trusted event, or the refusal that changes nothing |
| `MarketStateStores.MarketStateStore.SetStatus` | src/market_state_store.cpp:88-107 | status set and book dropped; Live is refused |
| `MarketStateStores.LiveIffBook` | src/market_state_store.cpp:29-107 | in every reachable store a market is Live if and only if its book is present |
| `MarketStateStores.OnlySnapshotsMakeLive` | src/market_state_store.cpp:29-107 | exactly which event leaves which market Live |
| `ConsolidatedQuotes.Calculate` | src/consolidated_quote.cpp:126-189 | the loop computes the quote, or the first refusal |
| `ConsolidatedQuotes.RefusalIsFirst` | src/consolidated_quote.cpp:126-189 | a refusal names the first state of another product or of a venue seen before |
| `ConsolidatedQuotes.TopsAreBestPrices` | src/consolidated_quote.cpp:53-79 | a venue's top quotes are the extreme prices of its Live book with their quantities; no other venue has any |
| `ConsolidatedQuotes.BestQuotesAreUnbeaten` | src/consolidated_quote.cpp:9-51 | no Live venue offers a better price, at that price a larger quantity, or the same from Coinbase when the best is Kraken's |
| `ConsolidatedQuotes.FragmentationIsRelativeDifference` | src/consolidated_quote.cpp:81-123 | fragmentation exists exactly for two Live venues with both sides and a positive midpoint; it gives both differences in basis points of the midpoint, and the larger of them |
| `ConsolidatedQuotes.BestBidIsOptimal` | src/consolidated_quote.cpp:9-29 | the best bid is offered by a Live venue and no Live venue's is better by price, quantity, venue |
| `ConsolidatedQuotes.BestAskIsOptimal` | src/consolidated_quote.cpp:31-51 | the same for the best ask |
| `ConsolidatedQuotes.QuoteIgnoresOrder` | src/consolidated_quote.cpp:126-189 | the order of the input states matters neither for being accepted nor for the quote |
| `ConsolidatedQuotes.BestPricesAreExtreme` | src/consolidated_quote.cpp:53-79 | no price of any Live book beats the consolidated best price |
| `ConsolidatedQuotes.NoFragmentationIffEqualPrices` | src/consolidated_quote.cpp:81-123 | fragmentation is never negative, and zero exactly when both venues quote equal prices |
| `ConsolidatedQuotes.StoreNeverRefused` | src/market_state_store.cpp:123-138 | a store's own states are never refused, and the quote has exactly the venues it knows |
| `Scanners.ScannerStreamHub.Publish` | src/scanner_stream.cpp:239-260 | cache and queues after a quote; an equal message is not sent again |
| `Scanners.ScannerStreamHub.Subscribe` | src/scanner_stream.cpp:229-237 | a new queue with the hello and every cached message |
| `Scanners.ScannerStatePublisher.constructor` | src/scanner_state.cpp:24-49 | every market of the universe is set connecting |
| `Scanners.ScannerStatePublisher.Apply` | src/scanner_state.cpp:51-84 | store, cache and queues after one event, or the refusal |
| `Scanners.InitiallyAgrees` | src/scanner_stream.cpp:145-168 | a fresh hub agrees with the store the publisher leaves, whatever the store held before |
| `Scanners.ApplyKeepsAgreement` | src/scanner_state.cpp:51-84 | every event keeps each cached message equal to the recomputed quote; for events of the universe only the store can refuse, never the quote or the missing-venue check |
| `Scanners.ApplyFailsIff` | src/scanner_state.cpp:51-84 | exactly which events the publisher refuses and why; a refused event changes nothing |
| `Scanners.SubscribersSeeRecomputedQuotes` | src/scanner_stream.cpp:216-274 | in every reachable state a drained subscriber's newest message of each product is the recomputed quote, and no two consecutive messages of one product are equal |

## Left out

- Threads, condition variables, lock fairness and timeouts: each locked method is one step, so only interleavings of whole methods are modelled.
- Floating-point rounding, infinities and NaN: prices and quantities are reals; only the explicit tolerance of `stable_floor` is kept.
- 64-bit overflow of nanosecond arithmetic, of column indices and of session numbers: these are unbounded; only the tracker's saturation is modelled.
- Boost.JSON parsing and serialisation: messages are their contents, and serialising is taken to be injective where messages are compared; where a Kraken message is a document tree, decoding strings, numbers and times are parameters.
- CRC-32, `strtod` and the calendar part of the timestamp parsers: parameters or integers.
- TLS, HTTP, WebSocket framing, command-line programs, recorder and option parsing: I/O over libraries that are not part of this model.
- Expired subscribers: a queue whose reader is gone is simply never read again; pruning the list of weak pointers is not modelled.
- Product normalisation, universe construction, status names, backoff delays and scanner row sorting: easy members.
- Canvas drawing, controls, reading display and reconnect timers of the browser: user interface; only the stream state is modelled.
- LiveReplication.Act: the loop of the live source runner appears as separate steps (process, publish, status, finish) in any order, which allows more interleavings than the loop; its backoff and logging are not modelled.
- KrakenSessions.KrakenUniverseSession.DispatchBook: `supported_`, which is written but never read, is left out.
- KrakenMessages.DecidesOnOwnLevels: takes the tokens of a level from the first member spelled `price` or `qty`, as the scanner does, while the presence check looks at decoded names; the two differ only for duplicated or escaped names inside one level. White space around the whole message is not printed.
- VenueRunnerLoops.CoinbaseUniverseRunner.Run: the backoff between connections and the length of the sleep are not modelled.
- VenueRunnerLoops.KrakenUniverseRunner.Run: the backoff between connections and the length of the sleep are not modelled.
- RawStreams.SynchronizedBookIsUnbrokenReplay: for raw streams only; an engine fed with trusted events is Live without its own reconstructor.
- ReplayStreams.ReplayPlayback.constructor: requires a loaded recording; reading the recording's JSON document is not modelled.
