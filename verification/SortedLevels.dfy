/**
 One side of an exact book as a list of levels in price order. `Represents` is
 the independent view, a map keyed by price: writing, erasing and truncating are
 shown to be the obvious operations on it.
 */
module SortedLevels {
  import opened Wrappers
  import opened Truncation

  /** The price and quantity texts exactly as they came over the wire. */
  datatype WireLevel = WireLevel(price: string, quantity: string)

  datatype Level = Level(price: real, wire: WireLevel)

  type Levels = seq<Level>

  predicate Sorted(ls: Levels) {
    forall i, j :: 0 <= i < j < |ls| ==> ls[i].price < ls[j].price
  }

  /** `levels[price] = wire`. */
  function Put(ls: Levels, price: real, wire: WireLevel): Levels {
    if ls == [] || price < ls[0].price then [Level(price, wire)] + ls
    else if ls[0].price < price then [ls[0]] + Put(ls[1..], price, wire)
    else [Level(ls[0].price, wire)] + ls[1..]
  }

  /** `levels.erase(price)`. */
  function Erase(ls: Levels, price: real): Levels {
    if ls == [] || price < ls[0].price then ls
    else if ls[0].price < price then [ls[0]] + Erase(ls[1..], price)
    else ls[1..]
  }

  /** The level at an exact price, if there is one. */
  function Find(ls: Levels, x: real): Option<WireLevel> {
    if ls == [] then None else if ls[0].price == x then Some(ls[0].wire) else Find(ls[1..], x)
  }

  /** The levels are exactly the entries of a map keyed by exact price. */
  ghost predicate Represents(ls: Levels, m: map<real, WireLevel>) {
    Sorted(ls) && forall x :: Find(ls, x) == Entry(m, x)
  }

  function Entry(m: map<real, WireLevel>, x: real): Option<WireLevel> {
    if x in m then Some(m[x]) else None
  }

  lemma {:induction false} FindAt(ls: Levels, i: nat)
    requires Sorted(ls) && i < |ls|
    ensures Find(ls, ls[i].price) == Some(ls[i].wire)
  {
    if i > 0 {
      FindAt(ls[1..], i - 1);
    }
  }

  lemma {:induction false} FindWitness(ls: Levels, x: real)
    requires Find(ls, x).Some?
    ensures exists i :: 0 <= i < |ls| && ls[i].price == x && Find(ls, x) == Some(ls[i].wire)
  {
    if ls[0].price != x {
      FindWitness(ls[1..], x);
      var i :| 0 <= i < |ls[1..]| && ls[1..][i].price == x && Find(ls[1..], x) == Some(ls[1..][i].wire);
      assert ls[i + 1] == ls[1..][i];
    }
  }

  /** Nothing is found below the first level. */
  lemma {:induction false} FindBelow(ls: Levels, x: real)
    requires Sorted(ls) && (ls != [] ==> x < ls[0].price)
    ensures Find(ls, x) == None
  {
    if Find(ls, x).Some? {
      FindWitness(ls, x);
    }
  }

  lemma {:induction false} SortedCons(l: Level, rest: Levels)
    requires Sorted(rest) && (rest != [] ==> l.price < rest[0].price)
    ensures Sorted([l] + rest)
  {
    var all := [l] + rest;
    forall i, j | 0 <= i < j < |all| ensures all[i].price < all[j].price {
      assert all[j] == rest[j - 1];
      assert rest[0] == rest[0];
    }
  }

  lemma {:induction false} PutKeepsOrder(ls: Levels, price: real, wire: WireLevel)
    requires Sorted(ls)
    ensures Sorted(Put(ls, price, wire))
    ensures ls != [] ==> Put(ls, price, wire)[0].price == (if price < ls[0].price then price else ls[0].price)
  {
    if ls != [] {
      if price < ls[0].price {
        SortedCons(Level(price, wire), ls);
      } else if ls[0].price < price {
        PutKeepsOrder(ls[1..], price, wire);
        SortedCons(ls[0], Put(ls[1..], price, wire));
      } else {
        SortedCons(Level(ls[0].price, wire), ls[1..]);
      }
    }
  }

  lemma {:induction false} PutFind(ls: Levels, price: real, wire: WireLevel, x: real)
    requires Sorted(ls)
    ensures Find(Put(ls, price, wire), x) == if x == price then Some(wire) else Find(ls, x)
  {
    if ls != [] {
      if ls[0].price < price {
        PutFind(ls[1..], price, wire, x);
      }
    }
  }

  /** Writing a level is writing its exact price. */
  lemma {:induction false} PutIsMapUpdate(ls: Levels, m: map<real, WireLevel>, price: real, wire: WireLevel)
    requires Represents(ls, m)
    ensures Represents(Put(ls, price, wire), m[price := wire])
  {
    PutKeepsOrder(ls, price, wire);
    forall x ensures Find(Put(ls, price, wire), x) == Entry(m[price := wire], x) {
      PutFind(ls, price, wire, x);
    }
  }

  lemma {:induction false} EraseKeepsOrder(ls: Levels, price: real)
    requires Sorted(ls)
    ensures Sorted(Erase(ls, price))
    ensures ls != [] && Erase(ls, price) != [] ==> ls[0].price <= Erase(ls, price)[0].price
  {
    if ls != [] {
      if ls[0].price < price {
        EraseKeepsOrder(ls[1..], price);
        SortedCons(ls[0], Erase(ls[1..], price));
      }
    }
  }

  lemma {:induction false} EraseFind(ls: Levels, price: real, x: real)
    requires Sorted(ls)
    ensures Find(Erase(ls, price), x) == if x == price then None else Find(ls, x)
  {
    if ls != [] {
      if ls[0].price < price {
        EraseFind(ls[1..], price, x);
      } else if price < ls[0].price {
        FindBelow(ls, price);
      } else {
        FindBelow(ls[1..], price);
      }
    }
  }

  /** Erasing a level is removing its exact price. */
  lemma {:induction false} EraseIsMapRemoval(ls: Levels, m: map<real, WireLevel>, price: real)
    requires Represents(ls, m)
    ensures Represents(Erase(ls, price), m - {price})
  {
    EraseKeepsOrder(ls, price);
    forall x ensures Find(Erase(ls, price), x) == Entry(m - {price}, x) {
      EraseFind(ls, price, x);
    }
  }

  // ---------- Truncation to the subscribed depth ----------

  function Prices(ls: Levels): set<real> {
    set i | 0 <= i < |ls| :: ls[i].price
  }

  lemma {:induction false} PricesSnoc(front: Levels, l: Level)
    ensures Prices(front + [l]) == Prices(front) + {l.price}
  {
    var all := front + [l];
    forall x | x in Prices(front) + {l.price} ensures x in Prices(all) {
      if x == l.price {
        assert all[|front|].price == x;
      } else {
        var i :| 0 <= i < |front| && front[i].price == x;
        assert all[i].price == x;
      }
    }
  }

  lemma {:induction false} CountPrices(ls: Levels)
    requires Sorted(ls)
    ensures |Prices(ls)| == |ls|
  {
    if ls == [] {
      assert Prices(ls) == {};
    } else {
      var front, l := ls[..|ls| - 1], ls[|ls| - 1];
      CountPrices(front);
      PricesSnoc(front, l);
      assert ls == front + [l];
      assert l.price !in Prices(front);
    }
  }

  /** The `depth` lowest prices: those with fewer than `depth` prices below them. */
  ghost function LowestPrices(m: map<real, WireLevel>, depth: nat): map<real, WireLevel> {
    map x | x in m && |Below(m, x)| < depth :: m[x]
  }

  /** The `depth` highest prices: those with fewer than `depth` prices above them. */
  ghost function HighestPrices(m: map<real, WireLevel>, depth: nat): map<real, WireLevel> {
    map x | x in m && |Above(m, x)| < depth :: m[x]
  }

  ghost function Below(m: map<real, WireLevel>, x: real): set<real> {
    set y | y in m.Keys && y < x
  }

  ghost function Above(m: map<real, WireLevel>, x: real): set<real> {
    set y | y in m.Keys && y > x
  }

  /** The place of a level is the number of prices on either side of it. */
  lemma {:induction false} RankIsPlace(ls: Levels, m: map<real, WireLevel>, i: nat)
    requires Represents(ls, m) && i < |ls|
    ensures ls[i].price in m && m[ls[i].price] == ls[i].wire
    ensures |Below(m, ls[i].price)| == i
    ensures |Above(m, ls[i].price)| == |ls| - 1 - i
  {
    var x := ls[i].price;
    FindAt(ls, i);
    assert Find(ls, x) == Entry(m, x);
    CountPrices(ls[..i]);
    CountPrices(ls[i + 1..]);
    forall y ensures y in Below(m, x) <==> y in Prices(ls[..i]) {
      KeyPlace(ls, m, y);
      if y in Below(m, x) {
        var j :| 0 <= j < |ls| && ls[j].price == y;
        assert ls[..i][j] == ls[j];
      }
      if y in Prices(ls[..i]) {
        var j :| 0 <= j < i && ls[..i][j].price == y;
        assert ls[j].price == y;
      }
    }
    assert Below(m, x) == Prices(ls[..i]);
    forall y ensures y in Above(m, x) <==> y in Prices(ls[i + 1..]) {
      KeyPlace(ls, m, y);
      if y in Above(m, x) {
        var j :| 0 <= j < |ls| && ls[j].price == y;
        assert ls[i + 1..][j - i - 1] == ls[j];
      }
      if y in Prices(ls[i + 1..]) {
        var j :| 0 <= j < |ls| - i - 1 && ls[i + 1..][j].price == y;
        assert ls[i + 1 + j].price == y;
      }
    }
    assert Above(m, x) == Prices(ls[i + 1..]);
  }

  lemma {:induction false} KeyPlace(ls: Levels, m: map<real, WireLevel>, y: real)
    requires Represents(ls, m)
    ensures y in m <==> exists j :: 0 <= j < |ls| && ls[j].price == y
  {
    assert Find(ls, y) == Entry(m, y);
    if y in m {
      FindWitness(ls, y);
    }
    if j :| 0 <= j < |ls| && ls[j].price == y {
      FindAt(ls, j);
    }
  }

  /** A run of consecutive levels is found exactly at its own prices. */
  lemma {:induction false} SliceSorted(ls: Levels, lo: nat, hi: nat)
    requires Sorted(ls) && lo <= hi <= |ls|
    ensures Sorted(ls[lo..hi])
  {
    var kept := ls[lo..hi];
    forall i, j | 0 <= i < j < |kept| ensures kept[i].price < kept[j].price {
      assert kept[i] == ls[lo + i] && kept[j] == ls[lo + j];
    }
  }

  lemma {:induction false} SliceRepresents(ls: Levels, lo: nat, hi: nat, x: real)
    requires Sorted(ls) && lo <= hi <= |ls|
    ensures Sorted(ls[lo..hi])
    ensures forall i :: lo <= i < hi && ls[i].price == x ==> Find(ls[lo..hi], x) == Some(ls[i].wire)
    ensures Find(ls[lo..hi], x).Some? ==> exists i :: lo <= i < hi && ls[i].price == x
  {
    var kept := ls[lo..hi];
    SliceSorted(ls, lo, hi);
    forall i | lo <= i < hi && ls[i].price == x ensures Find(kept, x) == Some(ls[i].wire) {
      assert kept[i - lo] == ls[i];
      FindAt(kept, i - lo);
    }
    if Find(kept, x).Some? {
      FindWitness(kept, x);
      var j :| 0 <= j < |kept| && kept[j].price == x;
      assert kept[j] == ls[lo + j];
    }
  }

  /** Truncating the asks keeps exactly the `depth` lowest prices, unchanged. */
  lemma {:induction false} KeepFirstIsLowest(ls: Levels, m: map<real, WireLevel>, depth: nat)
    requires Represents(ls, m)
    ensures Represents(KeepFirst(ls, depth), LowestPrices(m, depth))
    ensures |KeepFirst(ls, depth)| <= depth
  {
    var hi := if |ls| <= depth then |ls| else depth;
    assert KeepFirst(ls, depth) == ls[0..hi];
    forall x ensures Find(ls[0..hi], x) == Entry(LowestPrices(m, depth), x) {
      SliceRepresents(ls, 0, hi, x);
      KeyPlace(ls, m, x);
      if x in m {
        var j :| 0 <= j < |ls| && ls[j].price == x;
        RankIsPlace(ls, m, j);
      }
    }
    SliceRepresents(ls, 0, hi, 0.0);
  }

  /** Truncating the bids keeps exactly the `depth` highest prices, unchanged. */
  lemma {:induction false} KeepLastIsHighest(ls: Levels, m: map<real, WireLevel>, depth: nat)
    requires Represents(ls, m)
    ensures Represents(KeepLast(ls, depth), HighestPrices(m, depth))
    ensures |KeepLast(ls, depth)| <= depth
  {
    var lo := if |ls| <= depth then 0 else |ls| - depth;
    assert KeepLast(ls, depth) == ls[lo..|ls|];
    forall x ensures Find(ls[lo..|ls|], x) == Entry(HighestPrices(m, depth), x) {
      SliceRepresents(ls, lo, |ls|, x);
      KeyPlace(ls, m, x);
      if x in m {
        var j :| 0 <= j < |ls| && ls[j].price == x;
        RankIsPlace(ls, m, j);
      }
    }
    SliceRepresents(ls, lo, |ls|, 0.0);
  }

  // ---------- Truncating before an insertion does not matter ----------

  lemma {:induction false} KeepFirstAfterPut(ls: Levels, price: real, wire: WireLevel, depth: nat)
    ensures KeepFirst(Put(KeepFirst(ls, depth), price, wire), depth) == KeepFirst(Put(ls, price, wire), depth)
    decreases ls
  {
    if depth > 0 && ls != [] {
      var l, rest := ls[0], ls[1..];
      assert ls == [l] + rest;
      KeepFirstCons(l, rest, depth);
      var kept := KeepFirst(ls, depth);
      assert kept[0] == l && kept[1..] == KeepFirst(rest, depth - 1);
      if price < l.price {
        KeepFirstCons(Level(price, wire), ls, depth);
        KeepFirstCons(Level(price, wire), kept, depth);
        KeepFirstTwice(ls, depth);
      } else if l.price < price {
        KeepFirstAfterPut(rest, price, wire, depth - 1);
        KeepFirstCons(l, Put(rest, price, wire), depth);
        KeepFirstCons(l, Put(kept[1..], price, wire), depth);
      } else {
        KeepFirstCons(Level(l.price, wire), rest, depth);
        KeepFirstCons(Level(l.price, wire), kept[1..], depth);
      }
    }
  }

  predicate AllBelow(ls: Levels, price: real) {
    forall i :: 0 <= i < |ls| ==> ls[i].price < price
  }

  lemma {:induction false} PutAbove(ls: Levels, price: real, wire: WireLevel)
    requires AllBelow(ls, price)
    ensures Put(ls, price, wire) == ls + [Level(price, wire)]
  {
    if ls != [] {
      PutAbove(ls[1..], price, wire);
      assert ls + [Level(price, wire)] == [ls[0]] + (ls[1..] + [Level(price, wire)]);
    }
  }

  lemma {:induction false} PutOnLast(ls: Levels, l: Level, wire: WireLevel)
    requires AllBelow(ls, l.price)
    ensures Put(ls + [l], l.price, wire) == ls + [Level(l.price, wire)]
  {
    if ls == [] {
      PutCons(l, [], l.price, wire);
      assert ls + [l] == [l] + [];
    } else {
      var rest := ls[1..];
      PutOnLast(rest, l, wire);
      assert ls + [l] == [ls[0]] + (rest + [l]) by {
        assert ls == [ls[0]] + rest;
      }
      PutCons(ls[0], rest + [l], l.price, wire);
      assert ls + [Level(l.price, wire)] == [ls[0]] + (rest + [Level(l.price, wire)]) by {
        assert ls == [ls[0]] + rest;
      }
    }
  }

  lemma {:induction false} PutBeforeLast(ls: Levels, l: Level, price: real, wire: WireLevel)
    requires price < l.price
    ensures Put(ls + [l], price, wire) == Put(ls, price, wire) + [l]
  {
    if ls == [] {
      PutCons(l, [], price, wire);
      assert ls + [l] == [l] + [];
    } else {
      var rest := ls[1..];
      PutCons(ls[0], rest + [l], price, wire);
      assert ls + [l] == [ls[0]] + (rest + [l]);
      if ls[0].price < price {
        PutBeforeLast(rest, l, price, wire);
        assert [ls[0]] + (Put(rest, price, wire) + [l]) == ([ls[0]] + Put(rest, price, wire)) + [l];
      } else if price < ls[0].price {
        assert [Level(price, wire)] + (ls + [l]) == ([Level(price, wire)] + ls) + [l];
      } else {
        assert [Level(ls[0].price, wire)] + (rest + [l]) == ([Level(ls[0].price, wire)] + rest) + [l];
      }
    }
  }

  /** Insertion seen from the highest level. */
  lemma {:induction false} PutSnoc(rest: Levels, l: Level, price: real, wire: WireLevel)
    requires Sorted(rest + [l])
    ensures Put(rest + [l], price, wire)
      == if price > l.price then (rest + [l]) + [Level(price, wire)]
         else if price == l.price then rest + [Level(l.price, wire)]
         else Put(rest, price, wire) + [l]
  {
    var all := rest + [l];
    assert AllBelow(rest, l.price) by {
      forall i | 0 <= i < |rest| ensures rest[i].price < l.price {
        assert all[i] == rest[i] && all[|rest|] == l;
      }
    }
    if price > l.price {
      assert AllBelow(all, price);
      PutAbove(all, price, wire);
    } else if price == l.price {
      PutOnLast(rest, l, wire);
    } else {
      PutBeforeLast(rest, l, price, wire);
    }
  }

  lemma {:induction false} EraseCons(l: Level, rest: Levels, price: real)
    ensures Erase([l] + rest, price)
      == if price < l.price then [l] + rest
         else if l.price < price then [l] + Erase(rest, price)
         else rest
  {
    assert ([l] + rest)[1..] == rest;
  }

  lemma {:induction false} PutCons(l: Level, rest: Levels, price: real, wire: WireLevel)
    ensures Put([l] + rest, price, wire)
      == if price < l.price then [Level(price, wire)] + ([l] + rest)
         else if l.price < price then [l] + Put(rest, price, wire)
         else [Level(l.price, wire)] + rest
  {
    assert ([l] + rest)[1..] == rest;
  }

  lemma {:induction false} KeepLastAfterPut(ls: Levels, price: real, wire: WireLevel, depth: nat)
    requires Sorted(ls)
    ensures KeepLast(Put(KeepLast(ls, depth), price, wire), depth) == KeepLast(Put(ls, price, wire), depth)
    decreases ls
  {
    if depth > 0 && ls != [] {
      var n := |ls| - 1;
      var l, rest := ls[n], ls[..n];
      assert ls == rest + [l];
      if price < l.price {
        KeepLastSorted(rest, l, depth - 1);
        KeepLastAfterPut(rest, price, wire, depth - 1);
        KeepLastPutLower(rest, l, price, wire, depth);
      } else {
        KeepLastPutHighest(rest, l, price, wire, depth);
      }
    }
  }

  lemma {:induction false} KeepLastPutLower(rest: Levels, l: Level, price: real, wire: WireLevel, depth: nat)
    requires depth > 0 && price < l.price
    requires KeepLast(Put(KeepLast(rest, depth - 1), price, wire), depth - 1)
      == KeepLast(Put(rest, price, wire), depth - 1)
    ensures KeepLast(Put(KeepLast(rest + [l], depth), price, wire), depth)
      == KeepLast(Put(rest + [l], price, wire), depth)
  {
    var kept := KeepLast(rest, depth - 1);
    KeepLastSnoc(rest, l, depth);
    PutBeforeLast(rest, l, price, wire);
    PutBeforeLast(kept, l, price, wire);
    KeepLastSnoc(Put(rest, price, wire), l, depth);
    KeepLastSnoc(Put(kept, price, wire), l, depth);
  }

  lemma {:induction false} KeepLastPutHighest(rest: Levels, l: Level, price: real, wire: WireLevel, depth: nat)
    requires depth > 0 && price >= l.price && Sorted(rest + [l])
    ensures KeepLast(Put(KeepLast(rest + [l], depth), price, wire), depth)
      == KeepLast(Put(rest + [l], price, wire), depth)
  {
    KeepLastSnoc(rest, l, depth);
    KeepLastSorted(rest, l, depth - 1);
    PutSnoc(rest, l, price, wire);
    PutSnoc(KeepLast(rest, depth - 1), l, price, wire);
    if price > l.price {
      KeepLastAppend(rest + [l], Level(price, wire), depth);
    } else {
      KeepLastReplace(rest, Level(l.price, wire), depth);
    }
  }

  lemma {:induction false} KeepLastReplace(rest: Levels, l: Level, depth: nat)
    requires depth > 0
    ensures KeepLast(KeepLast(rest, depth - 1) + [l], depth) == KeepLast(rest + [l], depth)
  {
    KeepLastSnoc(rest, l, depth);
    KeepLastSnoc(KeepLast(rest, depth - 1), l, depth);
    KeepLastShort(rest, depth - 1);
  }

  lemma {:induction false} KeepLastSorted(rest: Levels, l: Level, depth: nat)
    requires Sorted(rest + [l])
    ensures Sorted(rest) && Sorted(KeepLast(rest, depth) + [l])
  {
    var kept := KeepLast(rest, depth) + [l];
    var all := rest + [l];
    var skip := |all| - |kept|;
    forall i, j | 0 <= i < j < |kept| ensures kept[i].price < kept[j].price {
      assert kept[i] == all[skip + i] && kept[j] == all[skip + j];
    }
    forall i, j | 0 <= i < j < |rest| ensures rest[i].price < rest[j].price {
      assert rest[i] == all[i] && rest[j] == all[j];
    }
  }
}
