/**
 Two maps of one side, the whole book and a part of it: after the same changes both
 have the same best prices exactly when the part has enough of them ahead of every
 price it misses.
 */
module PartialBooks {
  import opened Decimals
  import opened SortedLevels
  import opened KrakenBook

  predicate PartOf(part: PriceMap, all: PriceMap) {
    forall x :: x in part ==> x in all && part[x] == all[x]
  }

  /** Lower asks and higher bids come first. */
  predicate ComesBefore(y: real, x: real, asks: bool) {
    if asks then y < x else y > x
  }

  ghost function Ahead(m: PriceMap, x: real, asks: bool): (ys: set<real>)
    ensures forall y :: y in ys <==> y in m && ComesBefore(y, x, asks)
  {
    if asks then Below(m, x) else Above(m, x)
  }

  ghost function Best(m: PriceMap, depth: nat, asks: bool): (best: PriceMap)
    ensures forall x :: x in best <==> x in m && |Ahead(m, x, asks)| < depth
    ensures PartOf(best, m)
  {
    if asks then LowestPrices(m, depth) else HighestPrices(m, depth)
  }

  /** Every one of these prices has at least `depth` prices of the map ahead of it. */
  ghost predicate Covers(m: PriceMap, xs: set<real>, depth: nat, asks: bool) {
    forall x :: x in xs ==> |Ahead(m, x, asks)| >= depth
  }

  lemma {:induction false} SmallerSet<T>(a: set<T>, b: set<T>)
    requires a <= b
    ensures |a| <= |b|
  {
    if a != {} {
      var x :| x in a;
      SmallerSet(a - {x}, b - {x});
    }
  }

  lemma {:induction false} AnyOf<T>(s: set<T>) returns (x: T)
    requires s != {}
    ensures x in s
  {
    x :| x in s;
  }

  lemma {:induction false} SmallerIff(a: set<real>, b: set<real>)
    requires a <= b
    ensures |a| < |b| <==> exists x :: x in b - a
  {
    SplitSize(b, a, b - a);
    if b - a != {} {
      var x := AnyOf(b - a);
      assert x in b - a;
    }
  }

  lemma {:induction false} PartIsSmallerIff(part: PriceMap, all: PriceMap)
    requires PartOf(part, all)
    ensures |part.Keys| < |all.Keys| <==> exists x :: x in all.Keys - part.Keys
  {
    forall x | x in part.Keys ensures x in all.Keys {}
    SmallerIff(part.Keys, all.Keys);
  }

  lemma {:induction false} AheadOfPart(part: PriceMap, all: PriceMap, x: real, asks: bool)
    requires PartOf(part, all)
    ensures |Ahead(part, x, asks)| <= |Ahead(all, x, asks)|
  {
    SmallerSet(Ahead(part, x, asks), Ahead(all, x, asks));
  }

  lemma {:induction false} FurtherAhead(m: PriceMap, y: real, x: real, asks: bool)
    requires ComesBefore(y, x, asks)
    ensures |Ahead(m, y, asks)| <= |Ahead(m, x, asks)|
    ensures y in m ==> |Ahead(m, y, asks)| < |Ahead(m, x, asks)|
  {
    SmallerSet(Ahead(m, y, asks), Ahead(m, x, asks));
    if y in m {
      SmallerSet(Ahead(m, y, asks), Ahead(m, x, asks) - {y});
    }
  }

  lemma {:induction false} CoveredPartIsEnough(part: PriceMap, all: PriceMap, depth: nat, asks: bool)
    requires PartOf(part, all) && Covers(part, all.Keys - part.Keys, depth, asks)
    ensures Best(part, depth, asks) == Best(all, depth, asks)
  {
    forall x ensures x in Best(part, depth, asks) <==> x in Best(all, depth, asks) {
      AheadOfPart(part, all, x, asks);
      if x in Best(part, depth, asks) {
        forall y | y in Ahead(all, x, asks) ensures y in Ahead(part, x, asks) {
          FurtherAhead(part, y, x, asks);
        }
        assert Ahead(all, x, asks) == Ahead(part, x, asks);
      }
    }
  }

  /** A missing price with too few ahead of it, or the missing one furthest ahead of it, is seen. */
  lemma {:induction false} MissingPriceShows(part: PriceMap, all: PriceMap, x: real, depth: nat, asks: bool)
    requires PartOf(part, all) && x in all.Keys - part.Keys && |Ahead(part, x, asks)| < depth
    ensures Best(part, depth, asks) != Best(all, depth, asks)
    decreases |Ahead(all, x, asks)|
  {
    if y :| y in Ahead(all, x, asks) && y !in part {
      FurtherAhead(part, y, x, asks);
      FurtherAhead(all, y, x, asks);
      MissingPriceShows(part, all, y, depth, asks);
    } else {
      assert Ahead(all, x, asks) == Ahead(part, x, asks);
      assert x in Best(all, depth, asks) && x !in Best(part, depth, asks);
    }
  }

  lemma {:induction false} SameBestIff(part: PriceMap, all: PriceMap, depth: nat, asks: bool)
    requires PartOf(part, all)
    ensures Best(part, depth, asks) == Best(all, depth, asks)
      <==> Covers(part, all.Keys - part.Keys, depth, asks)
  {
    if Covers(part, all.Keys - part.Keys, depth, asks) {
      CoveredPartIsEnough(part, all, depth, asks);
    } else {
      var x :| x in all.Keys - part.Keys && |Ahead(part, x, asks)| < depth;
      MissingPriceShows(part, all, x, depth, asks);
    }
  }

  // ---------- The same changes on both ----------

  /** The exact prices a batch names. */
  function Touched(cs: seq<Change>): set<real> {
    if cs == [] then {} else Touched(cs[..|cs| - 1]) + {Value(cs[|cs| - 1].price)}
  }

  lemma {:induction false} ChangeAt(a: PriceMap, b: PriceMap, c: Change, x: real)
    ensures x == Value(c.price) ==> Entry(RefChange(a, c), x) == Entry(RefChange(b, c), x)
    ensures x != Value(c.price) ==> Entry(RefChange(a, c), x) == Entry(a, x)
  {}

  /** A batch decides the prices it names and leaves the others alone. */
  lemma {:induction false} ChangesAt(a: PriceMap, b: PriceMap, cs: seq<Change>, x: real)
    ensures x in Touched(cs) ==> Entry(RefChanges(a, cs), x) == Entry(RefChanges(b, cs), x)
    ensures x !in Touched(cs) ==> Entry(RefChanges(a, cs), x) == Entry(a, x)
  {
    if cs != [] {
      var front, c := cs[..|cs| - 1], cs[|cs| - 1];
      ChangesAt(a, b, front, x);
      ChangeAt(RefChanges(a, front), RefChanges(b, front), c, x);
      ChangeAt(RefChanges(b, front), RefChanges(a, front), c, x);
    }
  }

  lemma {:induction false} ChangedParts(part: PriceMap, all: PriceMap, cs: seq<Change>)
    requires PartOf(part, all)
    ensures PartOf(RefChanges(part, cs), RefChanges(all, cs))
    ensures RefChanges(all, cs).Keys - RefChanges(part, cs).Keys == all.Keys - part.Keys - Touched(cs)
  {
    forall x
      ensures x in RefChanges(part, cs) ==>
        x in RefChanges(all, cs) && RefChanges(part, cs)[x] == RefChanges(all, cs)[x]
      ensures x in RefChanges(all, cs).Keys - RefChanges(part, cs).Keys
        <==> x in all.Keys - part.Keys - Touched(cs)
    {
      ChangesAt(part, all, cs, x);
      ChangesAt(all, part, cs, x);
    }
  }

  /** Every missing price the batch leaves alone still has enough prices ahead of it. */
  ghost predicate Covered(part: PriceMap, all: PriceMap, cs: seq<Change>, depth: nat, asks: bool) {
    Covers(RefChanges(part, cs), all.Keys - part.Keys - Touched(cs), depth, asks)
  }

  /** After any batch the part has the same best prices as the whole book if and only if it is covered. */
  lemma {:induction false} SameBestAfterIff(part: PriceMap, all: PriceMap, cs: seq<Change>, depth: nat, asks: bool)
    requires PartOf(part, all)
    ensures Best(RefChanges(part, cs), depth, asks) == Best(RefChanges(all, cs), depth, asks)
      <==> Covered(part, all, cs, depth, asks)
  {
    ChangedParts(part, all, cs);
    SameBestIff(RefChanges(part, cs), RefChanges(all, cs), depth, asks);
  }

  // ---------- Counting what a batch takes and gives ----------

  /** The prices of the part the batch takes away. */
  function Lost(part: PriceMap, cs: seq<Change>): set<real> {
    part.Keys - RefChanges(part, cs).Keys
  }

  /** The new prices the batch puts ahead of `x`. */
  ghost function Gained(part: PriceMap, cs: seq<Change>, x: real, asks: bool): set<real> {
    Ahead(RefChanges(part, cs), x, asks) - part.Keys
  }

  lemma {:induction false} SplitSize<T>(s: set<T>, a: set<T>, b: set<T>)
    requires a !! b && s == a + b
    ensures |s| == |a| + |b|
  {}

  lemma {:induction false} SetBalance<T>(before: set<T>, next: set<T>, ahead: set<T>)
    requires before * next <= ahead <= next
    ensures |ahead| == |before| - |before - next| + |ahead - before|
  {
    var kept := before * next;
    SplitSize(before, kept, before - next);
    SplitSize(ahead, kept, ahead - before);
  }

  /** Ahead of a price that lies behind the whole part, losses and gains balance. */
  lemma {:induction false} AheadBalance(part: PriceMap, cs: seq<Change>, x: real, asks: bool)
    requires Ahead(part, x, asks) == part.Keys
    ensures |Ahead(RefChanges(part, cs), x, asks)|
      == |part.Keys| - |Lost(part, cs)| + |Gained(part, cs, x, asks)|
  {
    var next := RefChanges(part, cs);
    forall y | y in part.Keys * next.Keys ensures y in Ahead(next, x, asks) {
      assert y in Ahead(part, x, asks);
    }
    SetBalance(part.Keys, next.Keys, Ahead(next, x, asks));
  }

  /** Every missing price the batch leaves alone gets as many new prices ahead of it as the part loses. */
  ghost predicate Replaced(part: PriceMap, all: PriceMap, cs: seq<Change>, asks: bool) {
    forall x :: x in all.Keys - part.Keys - Touched(cs) ==> |Lost(part, cs)| <= |Gained(part, cs, x, asks)|
  }

  /** What truncation leaves: nothing is missing, or exactly `depth` prices ahead of all missing ones. */
  ghost predicate Front(part: PriceMap, all: PriceMap, depth: nat, asks: bool) {
    forall x :: x in all.Keys - part.Keys ==> Ahead(part, x, asks) == part.Keys && |part.Keys| == depth
  }

  lemma {:induction false} CoveredIffReplaced(part: PriceMap, all: PriceMap, cs: seq<Change>, depth: nat, asks: bool)
    requires Front(part, all, depth, asks)
    ensures Covered(part, all, cs, depth, asks) <==> Replaced(part, all, cs, asks)
  {
    forall x | x in all.Keys - part.Keys - Touched(cs)
      ensures |Ahead(RefChanges(part, cs), x, asks)| == depth - |Lost(part, cs)| + |Gained(part, cs, x, asks)|
    {
      AheadBalance(part, cs, x, asks);
    }
  }

  // ---------- A list of levels and its map determine each other ----------

  lemma {:induction false} RepresentsUnique(a: Levels, b: Levels, m: PriceMap)
    requires Represents(a, m) && Represents(b, m)
    ensures a == b
  {
    if b != [] {
      BothFound(a, b, m);
      FirstIsLeast(a, b, m);
      FirstIsLeast(b, a, m);
      var p := a[0].price;
      EraseIsMapRemoval(a, m, p);
      EraseIsMapRemoval(b, m, p);
      RepresentsUnique(a[1..], b[1..], m - {p});
      assert a == [a[0]] + a[1..] && b == [b[0]] + b[1..];
    } else if a != [] {
      BothFound(b, a, m);
    }
  }

  lemma {:induction false} BothFound(a: Levels, b: Levels, m: PriceMap)
    requires Represents(a, m) && Represents(b, m) && b != []
    ensures a != []
  {
    var p := b[0].price;
    assert Find(b, p) == Entry(m, p) == Find(a, p);
  }

  lemma {:induction false} FirstIsLeast(a: Levels, b: Levels, m: PriceMap)
    requires Represents(a, m) && Represents(b, m) && a != [] && b != []
    ensures b[0].price <= a[0].price && (a[0].price == b[0].price ==> a[0] == b[0])
  {
    var p := a[0].price;
    assert Find(b, p) == Entry(m, p) == Find(a, p);
    FindWitness(b, p);
  }

  lemma {:induction false} SameEntries(m: PriceMap, n: PriceMap)
    requires forall x :: Entry(m, x) == Entry(n, x)
    ensures m == n
  {
    forall x ensures x in m <==> x in n {
      assert Entry(m, x) == Entry(n, x);
    }
    forall x | x in m ensures m[x] == n[x] {
      assert Entry(m, x) == Entry(n, x);
    }
  }
}
