/**
 Batches of exact level changes and the book they build. The reference model is
 one map per side keyed by exact price; the adapter's levels are shown to represent
 it after every batch.
 */
module KrakenBook {
  import opened Decimals
  import opened SortedLevels
  import opened Truncation
  import opened KrakenLevels

  /** Price and quantity tokens of one changed level. */
  datatype Change = Change(price: string, quantity: string)

  datatype Batch = Batch(snapshot: bool, asks: seq<Change>, bids: seq<Change>, checksum: int, timestamp: int)

  datatype Sides = Sides(bids: LevelMap, asks: LevelMap)

  const NO_LEVELS := Sides([], [])

  predicate ValidChange(c: Change) {
    IsDecimal(c.price) && Value(c.price) > 0.0 && IsDecimal(c.quantity)
  }

  predicate ValidChanges(cs: seq<Change>) {
    forall i :: 0 <= i < |cs| ==> ValidChange(cs[i])
  }

  predicate Deletes(c: Change) {
    Value(c.quantity) == 0.0
  }

  predicate NoDeletions(cs: seq<Change>) {
    forall i :: 0 <= i < |cs| ==> !Deletes(cs[i])
  }

  predicate ValidBatch(b: Batch) {
    && ValidChanges(b.asks) && ValidChanges(b.bids)
    && (b.snapshot ==> NoDeletions(b.asks) && NoDeletions(b.bids))
  }

  predicate ValidBatches(bs: seq<Batch>) {
    forall i :: 0 <= i < |bs| ==> ValidBatch(bs[i])
  }

  function ApplyChange(es: LevelMap, c: Change): LevelMap {
    if Deletes(c) then Remove(es, Canonical(c.price))
    else Insert(es, Canonical(c.price), WireLevel(c.price, c.quantity))
  }

  function ApplyChanges(es: LevelMap, cs: seq<Change>): LevelMap {
    if cs == [] then es else ApplyChange(ApplyChanges(es, cs[..|cs| - 1]), cs[|cs| - 1])
  }

  /** One accepted batch: a snapshot starts from nothing, and both sides are truncated at the end. */
  function ApplyBatch(s: Sides, b: Batch, depth: nat): Sides {
    var from := if b.snapshot then NO_LEVELS else s;
    Sides(KeepLast(ApplyChanges(from.bids, b.bids), depth), KeepFirst(ApplyChanges(from.asks, b.asks), depth))
  }

  /** All batches in order, truncating after each. */
  function Replay(bs: seq<Batch>, depth: nat): Sides {
    if bs == [] then NO_LEVELS else ApplyBatch(Replay(bs[..|bs| - 1], depth), bs[|bs| - 1], depth)
  }

  // ---------- Reference model: maps keyed by exact price ----------

  type PriceMap = map<real, WireLevel>

  function RefChange(m: PriceMap, c: Change): PriceMap {
    if Deletes(c) then m - {Value(c.price)} else m[Value(c.price) := WireLevel(c.price, c.quantity)]
  }

  function RefChanges(m: PriceMap, cs: seq<Change>): PriceMap {
    if cs == [] then m else RefChange(RefChanges(m, cs[..|cs| - 1]), cs[|cs| - 1])
  }

  ghost function RefBids(bs: seq<Batch>, depth: nat): PriceMap {
    if bs == [] then map[]
    else
      var b := bs[|bs| - 1];
      HighestPrices(RefChanges(if b.snapshot then map[] else RefBids(bs[..|bs| - 1], depth), b.bids), depth)
  }

  ghost function RefAsks(bs: seq<Batch>, depth: nat): PriceMap {
    if bs == [] then map[]
    else
      var b := bs[|bs| - 1];
      LowestPrices(RefChanges(if b.snapshot then map[] else RefAsks(bs[..|bs| - 1], depth), b.asks), depth)
  }

  /** The stored side holds exactly the prices and wire texts of the map. */
  ghost predicate Holds(es: LevelMap, m: PriceMap) {
    CanonicalKeys(es) && Represents(Exact(es), m)
  }

  lemma {:induction false} ChangeHolds(es: LevelMap, m: PriceMap, c: Change)
    requires Holds(es, m) && ValidChange(c)
    ensures Holds(ApplyChange(es, c), RefChange(m, c))
  {
    CanonicalPreservesValue(c.price);
    var key, wire := Canonical(c.price), WireLevel(c.price, c.quantity);
    if Deletes(c) {
      RemoveIsErase(es, key);
      EraseIsMapRemoval(Exact(es), m, Value(key));
    } else {
      InsertIsPut(es, key, wire);
      PutIsMapUpdate(Exact(es), m, Value(key), wire);
    }
  }

  lemma {:induction false} ChangesHold(es: LevelMap, m: PriceMap, cs: seq<Change>)
    requires Holds(es, m) && ValidChanges(cs)
    ensures Holds(ApplyChanges(es, cs), RefChanges(m, cs))
  {
    if cs != [] {
      var n := |cs| - 1;
      ChangesHold(es, m, cs[..n]);
      ChangeHolds(ApplyChanges(es, cs[..n]), RefChanges(m, cs[..n]), cs[n]);
    }
  }

  lemma {:induction false} NothingHeld()
    ensures Holds([], map[])
  {
    assert forall x :: Find([], x) == SortedLevels.Entry(map[], x);
  }

  /** The bid side after any run of batches is the price-keyed replay. */
  lemma {:induction false} ReplayHoldsBids(bs: seq<Batch>, depth: nat)
    requires ValidBatches(bs)
    ensures Holds(Replay(bs, depth).bids, RefBids(bs, depth))
    ensures |Replay(bs, depth).bids| <= depth
  {
    NothingHeld();
    if bs != [] {
      var n := |bs| - 1;
      var b := bs[n];
      ReplayHoldsBids(bs[..n], depth);
      var from := if b.snapshot then [] else Replay(bs[..n], depth).bids;
      var m := if b.snapshot then map[] else RefBids(bs[..n], depth);
      ChangesHold(from, m, b.bids);
      KeepHolds(ApplyChanges(from, b.bids), RefChanges(m, b.bids), depth);
    }
  }

  /** The ask side after any run of batches is the price-keyed replay. */
  lemma {:induction false} ReplayHoldsAsks(bs: seq<Batch>, depth: nat)
    requires ValidBatches(bs)
    ensures Holds(Replay(bs, depth).asks, RefAsks(bs, depth))
    ensures |Replay(bs, depth).asks| <= depth
  {
    NothingHeld();
    if bs != [] {
      var n := |bs| - 1;
      var b := bs[n];
      ReplayHoldsAsks(bs[..n], depth);
      var from := if b.snapshot then [] else Replay(bs[..n], depth).asks;
      var m := if b.snapshot then map[] else RefAsks(bs[..n], depth);
      ChangesHold(from, m, b.asks);
      KeepHolds(ApplyChanges(from, b.asks), RefChanges(m, b.asks), depth);
    }
  }

  lemma {:induction false} KeepHolds(es: LevelMap, m: PriceMap, depth: nat)
    requires Holds(es, m)
    ensures Holds(KeepLast(es, depth), HighestPrices(m, depth)) && |KeepLast(es, depth)| <= depth
    ensures Holds(KeepFirst(es, depth), LowestPrices(m, depth)) && |KeepFirst(es, depth)| <= depth
  {
    KeepLastIsKeepLast(es, depth);
    KeepLastIsHighest(Exact(es), m, depth);
    KeepFirstIsKeepFirst(es, depth);
    KeepFirstIsLowest(Exact(es), m, depth);
  }

  // ---------- Truncating early loses nothing unless a level is deleted ----------

  function ExactChanges(ls: Levels, cs: seq<Change>): Levels {
    if cs == [] then ls
    else
      var c := cs[|cs| - 1];
      Put(ExactChanges(ls, cs[..|cs| - 1]), Value(c.price), WireLevel(c.price, c.quantity))
  }

  lemma {:induction false} ChangesAreExact(es: LevelMap, cs: seq<Change>)
    requires CanonicalKeys(es) && ValidChanges(cs) && NoDeletions(cs)
    ensures CanonicalKeys(ApplyChanges(es, cs))
    ensures Exact(ApplyChanges(es, cs)) == ExactChanges(Exact(es), cs)
  {
    if cs != [] {
      var n := |cs| - 1;
      ChangesAreExact(es, cs[..n]);
      CanonicalPreservesValue(cs[n].price);
      InsertIsPut(ApplyChanges(es, cs[..n]), Canonical(cs[n].price), WireLevel(cs[n].price, cs[n].quantity));
    }
  }

  lemma {:induction false} AsksTruncateOnce(ls: Levels, cs: seq<Change>, depth: nat)
    ensures KeepFirst(ExactChanges(KeepFirst(ls, depth), cs), depth) == KeepFirst(ExactChanges(ls, cs), depth)
  {
    if cs != [] {
      var n := |cs| - 1;
      var price, wire := Value(cs[n].price), WireLevel(cs[n].price, cs[n].quantity);
      AsksTruncateOnce(ls, cs[..n], depth);
      KeepFirstAfterPut(ExactChanges(KeepFirst(ls, depth), cs[..n]), price, wire, depth);
      KeepFirstAfterPut(ExactChanges(ls, cs[..n]), price, wire, depth);
    }
  }

  lemma {:induction false} ExactChangesSorted(ls: Levels, cs: seq<Change>)
    requires Sorted(ls)
    ensures Sorted(ExactChanges(ls, cs))
  {
    if cs != [] {
      var n := |cs| - 1;
      ExactChangesSorted(ls, cs[..n]);
      PutKeepsOrder(ExactChanges(ls, cs[..n]), Value(cs[n].price), WireLevel(cs[n].price, cs[n].quantity));
    }
  }

  lemma {:induction false} BidsTruncateOnce(ls: Levels, cs: seq<Change>, depth: nat)
    requires Sorted(ls)
    ensures KeepLast(ExactChanges(KeepLast(ls, depth), cs), depth) == KeepLast(ExactChanges(ls, cs), depth)
  {
    if cs != [] {
      var n := |cs| - 1;
      var price, wire := Value(cs[n].price), WireLevel(cs[n].price, cs[n].quantity);
      BidsTruncateOnce(ls, cs[..n], depth);
      ExactChangesSorted(ls, cs[..n]);
      KeptSorted(ls, depth);
      ExactChangesSorted(KeepLast(ls, depth), cs[..n]);
      KeepLastAfterPut(ExactChanges(KeepLast(ls, depth), cs[..n]), price, wire, depth);
      KeepLastAfterPut(ExactChanges(ls, cs[..n]), price, wire, depth);
    } else {
      KeepLastShort(ls, depth);
    }
  }

  lemma {:induction false} KeptSorted(ls: Levels, depth: nat)
    requires Sorted(ls)
    ensures Sorted(KeepLast(ls, depth))
  {
    if |ls| > depth {
      assert KeepLast(ls, depth) == ls[|ls| - depth..|ls|];
      SliceRepresents(ls, |ls| - depth, |ls|, 0.0);
    }
  }

  /** A batch that deletes nothing gives the same book whether or not it starts from a truncated one. */
  lemma {:induction false} TruncationCommutesWithInsertions(es: LevelMap, cs: seq<Change>, depth: nat)
    requires CanonicalKeys(es) && Sorted(Exact(es)) && ValidChanges(cs) && NoDeletions(cs)
    ensures KeepFirst(ApplyChanges(KeepFirst(es, depth), cs), depth) == KeepFirst(ApplyChanges(es, cs), depth)
    ensures KeepLast(ApplyChanges(KeepLast(es, depth), cs), depth) == KeepLast(ApplyChanges(es, cs), depth)
  {
    ChangesAreExact(es, cs);
    FirstCommutes(es, cs, depth);
    LastCommutes(es, cs, depth);
  }

  lemma {:induction false} FirstCommutes(es: LevelMap, cs: seq<Change>, depth: nat)
    requires CanonicalKeys(es) && Sorted(Exact(es)) && ValidChanges(cs) && NoDeletions(cs)
    requires CanonicalKeys(ApplyChanges(es, cs)) && Exact(ApplyChanges(es, cs)) == ExactChanges(Exact(es), cs)
    ensures KeepFirst(ApplyChanges(KeepFirst(es, depth), cs), depth) == KeepFirst(ApplyChanges(es, cs), depth)
  {
    var kept := KeepFirst(es, depth);
    KeepFirstIsKeepFirst(es, depth);
    ChangesAreExact(kept, cs);
    KeepFirstIsKeepFirst(ApplyChanges(kept, cs), depth);
    KeepFirstIsKeepFirst(ApplyChanges(es, cs), depth);
    AsksTruncateOnce(Exact(es), cs, depth);
    ExactInjective(KeepFirst(ApplyChanges(kept, cs), depth), KeepFirst(ApplyChanges(es, cs), depth));
  }

  lemma {:induction false} LastCommutes(es: LevelMap, cs: seq<Change>, depth: nat)
    requires CanonicalKeys(es) && Sorted(Exact(es)) && ValidChanges(cs) && NoDeletions(cs)
    requires CanonicalKeys(ApplyChanges(es, cs)) && Exact(ApplyChanges(es, cs)) == ExactChanges(Exact(es), cs)
    ensures KeepLast(ApplyChanges(KeepLast(es, depth), cs), depth) == KeepLast(ApplyChanges(es, cs), depth)
  {
    var kept := KeepLast(es, depth);
    KeepLastIsKeepLast(es, depth);
    ChangesAreExact(kept, cs);
    KeepLastIsKeepLast(ApplyChanges(kept, cs), depth);
    KeepLastIsKeepLast(ApplyChanges(es, cs), depth);
    BidsTruncateOnce(Exact(es), cs, depth);
    ExactInjective(KeepLast(ApplyChanges(kept, cs), depth), KeepLast(ApplyChanges(es, cs), depth));
  }

  /** Canonical keys are determined by their values, so equal exact levels are equal entries. */
  lemma {:induction false} ExactInjective(a: LevelMap, b: LevelMap)
    requires CanonicalKeys(a) && CanonicalKeys(b) && Exact(a) == Exact(b)
    ensures a == b
  {
    ExactLength(a);
    ExactLength(b);
    if a != [] {
      assert Exact(a)[0] == Exact(b)[0] && Exact(a)[1..] == Exact(b)[1..];
      CanonicalUnique(a[0].key, b[0].key);
      ExactInjective(a[1..], b[1..]);
      assert a == [a[0]] + a[1..] && b == [b[0]] + b[1..];
    }
  }

  // ---------- The book without truncation ----------

  function FullSides(bs: seq<Batch>): Sides {
    if bs == [] then NO_LEVELS
    else
      var b := bs[|bs| - 1];
      var from := if b.snapshot then NO_LEVELS else FullSides(bs[..|bs| - 1]);
      Sides(ApplyChanges(from.bids, b.bids), ApplyChanges(from.asks, b.asks))
  }

  predicate NothingDeleted(bs: seq<Batch>) {
    forall i :: 0 <= i < |bs| ==> NoDeletions(bs[i].bids) && NoDeletions(bs[i].asks)
  }

  /** Keys are canonical and strictly increasing: what every change keeps. */
  predicate WellKept(es: LevelMap) {
    CanonicalKeys(es) && Sorted(Exact(es))
  }

  lemma {:induction false} ChangeKeepsShape(es: LevelMap, c: Change)
    requires WellKept(es) && ValidChange(c)
    ensures WellKept(ApplyChange(es, c))
  {
    CanonicalPreservesValue(c.price);
    var key, wire := Canonical(c.price), WireLevel(c.price, c.quantity);
    if Deletes(c) {
      RemoveIsErase(es, key);
      EraseKeepsOrder(Exact(es), Value(key));
    } else {
      InsertIsPut(es, key, wire);
      PutKeepsOrder(Exact(es), Value(key), wire);
    }
  }

  lemma {:induction false} ChangesKeepShape(es: LevelMap, cs: seq<Change>)
    requires WellKept(es) && ValidChanges(cs)
    ensures WellKept(ApplyChanges(es, cs))
  {
    if cs != [] {
      ChangesKeepShape(es, cs[..|cs| - 1]);
      ChangeKeepsShape(ApplyChanges(es, cs[..|cs| - 1]), cs[|cs| - 1]);
    }
  }

  lemma {:induction false} FullSidesWellKept(bs: seq<Batch>)
    requires ValidBatches(bs)
    ensures WellKept(FullSides(bs).bids) && WellKept(FullSides(bs).asks)
  {
    if bs != [] {
      var n := |bs| - 1;
      FullSidesWellKept(bs[..n]);
      var from := if bs[n].snapshot then NO_LEVELS else FullSides(bs[..n]);
      ChangesKeepShape(from.bids, bs[n].bids);
      ChangesKeepShape(from.asks, bs[n].asks);
    }
  }

  /** As long as nothing is deleted, truncating after every batch is truncating once at the end. */
  lemma {:induction false} ReplayIsTruncatedFullBook(bs: seq<Batch>, depth: nat)
    requires ValidBatches(bs) && NothingDeleted(bs)
    ensures Replay(bs, depth).asks == KeepFirst(FullSides(bs).asks, depth)
    ensures Replay(bs, depth).bids == KeepLast(FullSides(bs).bids, depth)
  {
    if bs != [] {
      var n := |bs| - 1;
      ReplayIsTruncatedFullBook(bs[..n], depth);
      FullSidesWellKept(bs[..n]);
      if !bs[n].snapshot {
        var full := FullSides(bs[..n]);
        TruncationCommutesWithInsertions(full.asks, bs[n].asks, depth);
        TruncationCommutesWithInsertions(full.bids, bs[n].bids, depth);
      }
    }
  }
}
