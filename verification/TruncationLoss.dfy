/**
 Exactly when truncating early loses a level: for one batch, for every run of batches,
 for a single change, and a run at every depth that does lose one. Both sides are
 treated at once; `asks` says which.
 */
module TruncationLoss {
  import opened Decimals
  import opened SortedLevels
  import opened Truncation
  import opened KrakenLevels
  import opened KrakenBook
  import opened PartialBooks

  function Kept(es: LevelMap, depth: nat, asks: bool): LevelMap {
    if asks then KeepFirst(es, depth) else KeepLast(es, depth)
  }

  function SideOf(s: Sides, asks: bool): LevelMap {
    if asks then s.asks else s.bids
  }

  function ChangesOf(b: Batch, asks: bool): seq<Change> {
    if asks then b.asks else b.bids
  }

  /** A side and the map it holds determine each other. */
  lemma {:induction false} SameSideIff(a: LevelMap, m: PriceMap, b: LevelMap, n: PriceMap)
    requires Holds(a, m) && Holds(b, n)
    ensures a == b <==> m == n
  {
    if a == b {
      forall x ensures SortedLevels.Entry(m, x) == SortedLevels.Entry(n, x) {
        assert Find(Exact(a), x) == SortedLevels.Entry(m, x);
      }
      SameEntries(m, n);
    }
    if m == n {
      RepresentsUnique(Exact(a), Exact(b), m);
      ExactInjective(a, b);
    }
  }

  // ---------- One batch ----------

  lemma {:induction false} KeptHolds(es: LevelMap, m: PriceMap, depth: nat, asks: bool)
    requires Holds(es, m)
    ensures Holds(Kept(es, depth, asks), Best(m, depth, asks))
  {
    KeepHolds(es, m, depth);
  }

  /** Two sides, one holding a part of what the other holds, are cut to the same side after a batch. */
  lemma {:induction false} SameSideAfterIff(
      stored: LevelMap, part: PriceMap, es: LevelMap, all: PriceMap, cs: seq<Change>, depth: nat, asks: bool)
    requires Holds(stored, part) && Holds(es, all) && PartOf(part, all) && ValidChanges(cs)
    ensures Kept(ApplyChanges(stored, cs), depth, asks) == Kept(ApplyChanges(es, cs), depth, asks)
      <==> Covered(part, all, cs, depth, asks)
  {
    ChangesHold(stored, part, cs);
    ChangesHold(es, all, cs);
    KeptHolds(ApplyChanges(stored, cs), RefChanges(part, cs), depth, asks);
    KeptHolds(ApplyChanges(es, cs), RefChanges(all, cs), depth, asks);
    SameSideIff(
      Kept(ApplyChanges(stored, cs), depth, asks), Best(RefChanges(part, cs), depth, asks),
      Kept(ApplyChanges(es, cs), depth, asks), Best(RefChanges(all, cs), depth, asks));
    SameBestAfterIff(part, all, cs, depth, asks);
  }

  /** The map a side holds. */
  function ByPrice(es: LevelMap): PriceMap {
    if es == [] then map[] else ByPrice(es[1..])[Value(es[0].key) := es[0].wire]
  }

  lemma {:induction false} ByPriceHolds(es: LevelMap)
    requires WellKept(es)
    ensures Holds(es, ByPrice(es))
  {
    if es == [] {
      NothingHeld();
    } else {
      assert Exact(es)[1..] == Exact(es[1..]);
      ByPriceHolds(es[1..]);
      forall x ensures Find(Exact(es), x) == SortedLevels.Entry(ByPrice(es), x) {
        assert Find(Exact(es[1..]), x) == SortedLevels.Entry(ByPrice(es[1..]), x);
      }
    }
  }

  lemma {:induction false} HeldCount(es: LevelMap, m: PriceMap)
    requires Holds(es, m)
    ensures |m.Keys| == |es|
  {
    var ls := Exact(es);
    ExactLength(es);
    CountPrices(ls);
    forall x ensures x in m.Keys <==> x in Prices(ls) {
      KeyPlace(ls, m, x);
    }
    assert m.Keys == Prices(ls);
  }

  /** A price that was cut off has all kept ones ahead of it. */
  lemma {:induction false} BestIsAhead(m: PriceMap, x: real, depth: nat, asks: bool)
    requires x in m && x !in Best(m, depth, asks)
    ensures Ahead(Best(m, depth, asks), x, asks) == Best(m, depth, asks).Keys
  {
    forall y | y in Best(m, depth, asks) ensures ComesBefore(y, x, asks) {
      if !ComesBefore(y, x, asks) {
        assert ComesBefore(x, y, asks);
        FurtherAhead(m, x, y, asks);
      }
    }
  }

  lemma {:induction false} CutOffBeyondDepth(es: LevelMap, m: PriceMap, x: real, depth: nat, asks: bool)
    requires Holds(es, m) && x in m && x !in Best(m, depth, asks)
    ensures |es| > depth
  {
    ExactLength(es);
    KeyPlace(Exact(es), m, x);
    var i :| 0 <= i < |es| && Exact(es)[i].price == x;
    RankIsPlace(Exact(es), m, i);
  }

  lemma {:induction false} BestIsFront(es: LevelMap, m: PriceMap, depth: nat, asks: bool)
    requires Holds(es, m)
    ensures Front(Best(m, depth, asks), m, depth, asks)
  {
    var best := Best(m, depth, asks);
    forall x | x in m.Keys - best.Keys ensures Ahead(best, x, asks) == best.Keys && |best.Keys| == depth {
      BestIsAhead(m, x, depth, asks);
      CutOffBeyondDepth(es, m, x, depth, asks);
      KeptHolds(es, m, depth, asks);
      HeldCount(Kept(es, depth, asks), best);
    }
  }

  /**
   Truncating before a batch as well as after it gives the same side if and only if
   every price that was cut off and is not named by the batch gets at least as many new
   prices ahead of it as the batch takes away from the kept ones.
   */
  lemma {:induction false} EarlyTruncationHarmlessIff(es: LevelMap, cs: seq<Change>, depth: nat, asks: bool)
    requires WellKept(es) && ValidChanges(cs)
    ensures Kept(ApplyChanges(Kept(es, depth, asks), cs), depth, asks) == Kept(ApplyChanges(es, cs), depth, asks)
      <==> Replaced(Best(ByPrice(es), depth, asks), ByPrice(es), cs, asks)
  {
    var all := ByPrice(es);
    var best := Best(all, depth, asks);
    ByPriceHolds(es);
    KeptHolds(es, all, depth, asks);
    SameSideAfterIff(Kept(es, depth, asks), best, es, all, cs, depth, asks);
    BestIsFront(es, all, depth, asks);
    CoveredIffReplaced(best, all, cs, depth, asks);
  }

  lemma {:induction false} RewritingTakesNothing(part: PriceMap, gone: Change, again: Change)
    requires !Deletes(again) && Value(gone.price) == Value(again.price)
    ensures Lost(part, [gone, again]) == {}
  {
    assert [gone, again][..1] == [gone] && [gone][..0] == [];
    assert RefChanges(part, [gone]) == RefChange(part, gone);
    assert RefChanges(part, [gone, again]) == RefChange(RefChange(part, gone), again);
  }

  /** Deleting a kept price and writing it again in the same batch loses nothing. */
  lemma {:induction false} RewritingIsHarmless(
      es: LevelMap, gone: Change, again: Change, depth: nat, asks: bool)
    requires WellKept(es) && ValidChanges([gone, again])
    requires Deletes(gone) && !Deletes(again) && Value(gone.price) == Value(again.price)
    ensures Kept(ApplyChanges(Kept(es, depth, asks), [gone, again]), depth, asks)
      == Kept(ApplyChanges(es, [gone, again]), depth, asks)
  {
    RewritingTakesNothing(Best(ByPrice(es), depth, asks), gone, again);
    EarlyTruncationHarmlessIff(es, [gone, again], depth, asks);
  }

  // ---------- Every run ----------

  ghost function Stored(bs: seq<Batch>, depth: nat, asks: bool): PriceMap {
    if asks then RefAsks(bs, depth) else RefBids(bs, depth)
  }

  /** The side that was never truncated, by exact price. */
  function Whole(bs: seq<Batch>, asks: bool): PriceMap {
    if bs == [] then map[]
    else
      var b := bs[|bs| - 1];
      RefChanges(if b.snapshot then map[] else Whole(bs[..|bs| - 1], asks), ChangesOf(b, asks))
  }

  lemma {:induction false} StoredHolds(bs: seq<Batch>, depth: nat, asks: bool)
    requires ValidBatches(bs)
    ensures Holds(SideOf(Replay(bs, depth), asks), Stored(bs, depth, asks))
  {
    ReplayHoldsAsks(bs, depth);
    ReplayHoldsBids(bs, depth);
  }

  lemma {:induction false} WholeHolds(bs: seq<Batch>, asks: bool)
    requires ValidBatches(bs)
    ensures Holds(SideOf(FullSides(bs), asks), Whole(bs, asks))
  {
    NothingHeld();
    if bs != [] {
      var front, b := bs[..|bs| - 1], bs[|bs| - 1];
      WholeHolds(front, asks);
      var from := if b.snapshot then [] else SideOf(FullSides(front), asks);
      ChangesHold(from, if b.snapshot then map[] else Whole(front, asks), ChangesOf(b, asks));
    }
  }

  /** Whatever was lost, what is still stored is as in the whole book. */
  lemma {:induction false} StoredIsPart(bs: seq<Batch>, depth: nat, asks: bool)
    ensures PartOf(Stored(bs, depth, asks), Whole(bs, asks))
  {
    if bs != [] {
      var front, b := bs[..|bs| - 1], bs[|bs| - 1];
      StoredIsPart(front, depth, asks);
      var part := if b.snapshot then map[] else Stored(front, depth, asks);
      ChangedParts(part, if b.snapshot then map[] else Whole(front, asks), ChangesOf(b, asks));
      assert Stored(bs, depth, asks) == Best(RefChanges(part, ChangesOf(b, asks)), depth, asks);
    }
  }

  /** The adapter's side is the whole book's, cut to the depth. */
  predicate InStep(bs: seq<Batch>, depth: nat, asks: bool) {
    SideOf(Replay(bs, depth), asks) == Kept(SideOf(FullSides(bs), asks), depth, asks)
  }

  /**
   After any run, in step or not before its last batch, the adapter's side is the whole
   book's cut to the depth if and only if that batch is a snapshot or every price that
   was not stored and is not named by it has `depth` prices ahead of it.
   */
  lemma {:induction false} InStepIff(bs: seq<Batch>, b: Batch, depth: nat, asks: bool)
    requires ValidBatches(bs) && ValidBatch(b)
    ensures InStep(bs + [b], depth, asks)
      <==> b.snapshot || Covered(Stored(bs, depth, asks), Whole(bs, asks), ChangesOf(b, asks), depth, asks)
  {
    NextReplay(bs, b, depth);
    if !b.snapshot {
      StoredHolds(bs, depth, asks);
      WholeHolds(bs, asks);
      StoredIsPart(bs, depth, asks);
      SameSideAfterIff(
        SideOf(Replay(bs, depth), asks), Stored(bs, depth, asks), SideOf(FullSides(bs), asks), Whole(bs, asks),
        ChangesOf(b, asks), depth, asks);
    }
  }

  lemma {:induction false} NextReplay(bs: seq<Batch>, b: Batch, depth: nat)
    ensures Replay(bs + [b], depth) == ApplyBatch(Replay(bs, depth), b, depth)
    ensures var from := if b.snapshot then NO_LEVELS else FullSides(bs);
      FullSides(bs + [b]) == Sides(ApplyChanges(from.bids, b.bids), ApplyChanges(from.asks, b.asks))
  {
    assert (bs + [b])[..|bs|] == bs;
  }

  /** A side in step stays in step exactly when the batch replaces the kept prices it takes away. */
  lemma {:induction false} NextBatchStaysInStepIff(bs: seq<Batch>, b: Batch, depth: nat, asks: bool)
    requires ValidBatches(bs) && ValidBatch(b) && InStep(bs, depth, asks)
    ensures InStep(bs + [b], depth, asks)
      <==> b.snapshot || Replaced(Stored(bs, depth, asks), Whole(bs, asks), ChangesOf(b, asks), asks)
  {
    InStepIff(bs, b, depth, asks);
    InStepFront(bs, depth, asks);
    CoveredIffReplaced(Stored(bs, depth, asks), Whole(bs, asks), ChangesOf(b, asks), depth, asks);
  }

  lemma {:induction false} InStepFront(bs: seq<Batch>, depth: nat, asks: bool)
    requires ValidBatches(bs) && InStep(bs, depth, asks)
    ensures Stored(bs, depth, asks) == Best(Whole(bs, asks), depth, asks)
    ensures Front(Stored(bs, depth, asks), Whole(bs, asks), depth, asks)
  {
    var es := SideOf(FullSides(bs), asks);
    StoredHolds(bs, depth, asks);
    WholeHolds(bs, asks);
    KeptHolds(es, Whole(bs, asks), depth, asks);
    SameSideIff(
      SideOf(Replay(bs, depth), asks), Stored(bs, depth, asks),
      Kept(es, depth, asks), Best(Whole(bs, asks), depth, asks));
    BestIsFront(es, Whole(bs, asks), depth, asks);
  }

  // ---------- A single change ----------

  predicate HasKey(es: LevelMap, key: string) {
    exists i :: 0 <= i < |es| && es[i].key == key
  }

  /** A deletion hits a kept level while a level beyond the depth was cut off. */
  predicate LosesLevel(all: LevelMap, kept: LevelMap, c: Change) {
    Deletes(c) && |kept| < |all| && HasKey(kept, Canonical(c.price))
  }

  lemma {:induction false} HeldKey(es: LevelMap, m: PriceMap, price: string)
    requires Holds(es, m) && IsDecimal(price)
    ensures HasKey(es, Canonical(price)) <==> Value(price) in m
  {
    ExactLength(es);
    CanonicalPreservesValue(price);
    KeyPlace(Exact(es), m, Value(price));
    forall i | 0 <= i < |es| ensures Exact(es)[i].price == Value(price) <==> es[i].key == Canonical(price) {
      ExactEntry(es, i);
      if Value(es[i].key) == Value(price) {
        CanonicalUnique(es[i].key, Canonical(price));
      }
    }
  }

  lemma {:induction false} ChangesOnce(part: PriceMap, c: Change, x: real, asks: bool)
    ensures Touched([c]) == {Value(c.price)} && RefChanges(part, [c]) == RefChange(part, c)
    ensures Lost(part, [c]) == if Deletes(c) && Value(c.price) in part then {Value(c.price)} else {}
    ensures Deletes(c) ==> Gained(part, [c], x, asks) == {}
  {
    assert [c][..0] == [];
  }

  lemma {:induction false} OneChangeReplaces(part: PriceMap, c: Change, x: real, asks: bool)
    ensures |Lost(part, [c])| <= |Gained(part, [c], x, asks)| <==> !(Deletes(c) && Value(c.price) in part)
  {
    ChangesOnce(part, c, x, asks);
  }

  lemma {:induction false} OneChangeReplacedIff(part: PriceMap, all: PriceMap, c: Change, asks: bool)
    requires PartOf(part, all)
    ensures Replaced(part, all, [c], asks)
      <==> !(Deletes(c) && Value(c.price) in part && exists x :: x in all.Keys - part.Keys)
  {
    forall x ensures |Lost(part, [c])| <= |Gained(part, [c], x, asks)| <==> !(Deletes(c) && Value(c.price) in part) {
      OneChangeReplaces(part, c, x, asks);
    }
    forall x | x in all.Keys - part.Keys && Value(c.price) in part
      ensures x in all.Keys - part.Keys - Touched([c])
    {
      ChangesOnce(part, c, x, asks);
    }
  }

  lemma {:induction false} MissingIff(kept: LevelMap, part: PriceMap, es: LevelMap, all: PriceMap)
    requires Holds(kept, part) && Holds(es, all) && PartOf(part, all)
    ensures |kept| < |es| <==> exists x :: x in all.Keys - part.Keys
  {
    HeldCount(kept, part);
    HeldCount(es, all);
    PartIsSmallerIff(part, all);
  }

  lemma {:induction false} LosesLevelIff(
      kept: LevelMap, part: PriceMap, es: LevelMap, all: PriceMap, c: Change, asks: bool)
    requires Holds(kept, part) && Holds(es, all) && PartOf(part, all) && ValidChange(c)
    ensures Replaced(part, all, [c], asks) <==> !LosesLevel(es, kept, c)
  {
    OneChangeReplacedIff(part, all, c, asks);
    MissingIff(kept, part, es, all);
    HeldKey(kept, part, c.price);
  }

  /** One change is harmless unless it deletes a kept level while another level was cut off. */
  lemma {:induction false} OneChangeHarmlessIff(es: LevelMap, c: Change, depth: nat, asks: bool)
    requires WellKept(es) && ValidChange(c)
    ensures Kept(ApplyChange(Kept(es, depth, asks), c), depth, asks) == Kept(ApplyChange(es, c), depth, asks)
      <==> !LosesLevel(es, Kept(es, depth, asks), c)
  {
    var all := ByPrice(es);
    ByPriceHolds(es);
    OneChange(es, c);
    OneChange(Kept(es, depth, asks), c);
    EarlyTruncationHarmlessIff(es, [c], depth, asks);
    KeptHolds(es, all, depth, asks);
    LosesLevelIff(Kept(es, depth, asks), Best(all, depth, asks), es, all, c, asks);
  }

  lemma {:induction false} OneChange(es: LevelMap, c: Change)
    ensures ApplyChanges(es, [c]) == ApplyChange(es, c)
  {
    assert [c][..0] == [];
  }

  function OneLevel(c: Change, asks: bool): Batch {
    if asks then Batch(false, [c], [], 0, 0) else Batch(false, [], [c], 0, 0)
  }

  /** An update of one level keeps a side in step unless it loses a level. */
  lemma {:induction false} NextChangeStaysInStepIff(bs: seq<Batch>, c: Change, depth: nat, asks: bool)
    requires ValidBatches(bs) && ValidChange(c) && InStep(bs, depth, asks)
    ensures InStep(bs + [OneLevel(c, asks)], depth, asks)
      <==> !LosesLevel(SideOf(FullSides(bs), asks), SideOf(Replay(bs, depth), asks), c)
  {
    NextBatchStaysInStepIff(bs, OneLevel(c, asks), depth, asks);
    StoredHolds(bs, depth, asks);
    WholeHolds(bs, asks);
    StoredIsPart(bs, depth, asks);
    LosesLevelIff(
      SideOf(Replay(bs, depth), asks), Stored(bs, depth, asks), SideOf(FullSides(bs), asks), Whole(bs, asks), c,
      asks);
  }

  // ---------- A run that loses a level ----------

  /** The price written with `n` ones: more digits, higher price. */
  function Ones(n: nat): (s: string)
    ensures |s| == n && forall i :: 0 <= i < n ==> s[i] == '1'
  {
    if n == 0 then "" else "1" + Ones(n - 1)
  }

  /** `n` asks, from a single 1 up to `n` ones. */
  function Ladder(n: nat): (cs: seq<Change>)
    ensures |cs| == n
  {
    if n == 0 then [] else Ladder(n - 1) + [Change(Ones(n), "1")]
  }

  function LadderLevels(n: nat): (es: LevelMap)
    ensures |es| == n
  {
    if n == 0 then [] else LadderLevels(n - 1) + [KrakenLevels.Entry(Ones(n), WireLevel(Ones(n), "1"))]
  }

  lemma {:induction false} OnesCanonical(n: nat)
    requires n > 0
    ensures IntegerPart(Ones(n)) == Ones(n)
    ensures IsCanonical(Ones(n)) && Canonical(Ones(n)) == Ones(n) && Value(Ones(n)) > 0.0
  {
    assert PointIndex(Ones(n)) == n;
    CanonicalIsIdempotent(Ones(n));
    ZeroValue(Ones(n));
  }

  lemma {:induction false} InsertAbove(es: LevelMap, key: string, wire: WireLevel)
    requires forall i :: 0 <= i < |es| ==> ExactDecimalLess(es[i].key, key) && !ExactDecimalLess(key, es[i].key)
    ensures Insert(es, key, wire) == es + [KrakenLevels.Entry(key, wire)]
  {
    if es != [] {
      InsertAbove(es[1..], key, wire);
      assert es + [KrakenLevels.Entry(key, wire)] == [es[0]] + (es[1..] + [KrakenLevels.Entry(key, wire)]);
    }
  }

  lemma {:induction false} LadderKeys(n: nat, i: nat)
    requires i < n
    ensures LadderLevels(n)[i].key == Ones(i + 1)
  {
    if i < n - 1 {
      LadderKeys(n - 1, i);
    }
  }

  lemma {:induction false} LadderBelow(n: nat, i: nat)
    requires i < n
    ensures ExactDecimalLess(LadderLevels(n)[i].key, Ones(n + 1))
    ensures !ExactDecimalLess(Ones(n + 1), LadderLevels(n)[i].key)
  {
    LadderKeys(n, i);
    OnesCanonical(i + 1);
    OnesCanonical(n + 1);
  }

  lemma {:induction false} LadderStep(n: nat)
    ensures Insert(LadderLevels(n), Ones(n + 1), WireLevel(Ones(n + 1), "1")) == LadderLevels(n + 1)
  {
    forall i | 0 <= i < n
      ensures ExactDecimalLess(LadderLevels(n)[i].key, Ones(n + 1))
      ensures !ExactDecimalLess(Ones(n + 1), LadderLevels(n)[i].key)
    {
      LadderBelow(n, i);
    }
    InsertAbove(LadderLevels(n), Ones(n + 1), WireLevel(Ones(n + 1), "1"));
  }

  lemma {:induction false} RungIsValid(n: nat)
    requires n > 0
    ensures ValidChange(Change(Ones(n), "1")) && !Deletes(Change(Ones(n), "1"))
  {
    OnesCanonical(n);
    OnesCanonical(1);
    assert Ones(1) == "1";
  }

  lemma {:induction false} ChangesSnoc(cs: seq<Change>, c: Change)
    requires ValidChanges(cs) && NoDeletions(cs) && ValidChange(c) && !Deletes(c)
    ensures ValidChanges(cs + [c]) && NoDeletions(cs + [c])
  {}

  lemma {:induction false} LadderIsValid(n: nat)
    ensures ValidChanges(Ladder(n)) && NoDeletions(Ladder(n))
  {
    if n > 0 {
      LadderIsValid(n - 1);
      RungIsValid(n);
      ChangesSnoc(Ladder(n - 1), Change(Ones(n), "1"));
    }
  }

  lemma {:induction false} LadderBuilds(n: nat)
    ensures ApplyChanges([], Ladder(n)) == LadderLevels(n)
  {
    if n > 0 {
      LadderBuilds(n - 1);
      RungIsValid(n);
      OnesCanonical(n);
      LadderStep(n - 1);
      assert Ladder(n)[..n - 1] == Ladder(n - 1);
    }
  }

  lemma {:induction false} ZeroDeletes()
    ensures ValidChange(Change("1", "0")) && Deletes(Change("1", "0")) && Canonical("1") == Ones(1)
  {
    OnesCanonical(1);
    assert Ones(1) == "1";
    ZeroText();
    ZeroValue("0");
  }

  /** A snapshot of one ask more than the depth. */
  function LongSnapshot(depth: nat): Batch {
    Batch(true, Ladder(depth + 1), [Change("1", "1")], 0, 0)
  }

  lemma {:induction false} LongSnapshotIsValid(depth: nat)
    ensures ValidBatches([LongSnapshot(depth)])
  {
    LadderIsValid(depth + 1);
    RungIsValid(1);
    assert Ones(1) == "1";
  }

  lemma {:induction false} LongSnapshotBuilds(depth: nat)
    ensures FullSides([LongSnapshot(depth)]).asks == LadderLevels(depth + 1)
    ensures Replay([LongSnapshot(depth)], depth).asks == LadderLevels(depth + 1)[..depth]
  {
    LadderBuilds(depth + 1);
    assert [LongSnapshot(depth)][..0] == [];
  }

  /** Both sides agree after that snapshot, one level was cut off, and the price 1 is kept. */
  lemma {:induction false} LongSnapshotHoldsOne(depth: nat)
    requires depth > 0
    ensures HasKey(Replay([LongSnapshot(depth)], depth).asks, Canonical("1"))
    ensures Replay([LongSnapshot(depth)], depth).asks == KeepFirst(FullSides([LongSnapshot(depth)]).asks, depth)
    ensures |FullSides([LongSnapshot(depth)]).asks| > depth
  {
    LongSnapshotBuilds(depth);
    OnesCanonical(1);
    assert Ones(1) == "1";
    LadderKeys(depth + 1, 0);
    assert Replay([LongSnapshot(depth)], depth).asks[0].key == Canonical("1");
  }

  lemma {:induction false} AppendedIsValid(bs: seq<Batch>, b: Batch)
    requires ValidBatches(bs) && ValidBatch(b)
    ensures ValidBatches(bs + [b])
  {}

  /**
   At every depth, such a snapshot followed by the deletion of its best ask leaves the
   adapter with another side than the full book, cut to the depth, has.
   */
  lemma {:induction false} DeletionDoesNotRefill(depth: nat)
    requires depth > 0
    ensures var run := [LongSnapshot(depth)] + [OneLevel(Change("1", "0"), true)];
      ValidBatches(run) && Replay(run, depth).asks != KeepFirst(FullSides(run).asks, depth)
  {
    var first, c := [LongSnapshot(depth)], Change("1", "0");
    LongSnapshotIsValid(depth);
    LongSnapshotHoldsOne(depth);
    ZeroDeletes();
    NextChangeStaysInStepIff(first, c, depth, true);
    AppendedIsValid(first, OneLevel(c, true));
  }
}
