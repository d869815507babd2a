/**
 One side of the Kraken book as the adapter stores it: a map keyed by canonical
 price text and ordered by `ExactDecimalLess`. `Exact` replaces every key by its
 value, and every operation commutes with it.
 */
module KrakenLevels {
  import opened Decimals
  import opened Truncation
  import opened SortedLevels

  datatype Entry = Entry(key: string, wire: WireLevel)

  /** The entries in iteration order. */
  type LevelMap = seq<Entry>

  predicate CanonicalKeys(es: LevelMap) {
    forall i :: 0 <= i < |es| ==> IsCanonical(es[i].key)
  }

  /** `levels[key] = wire`. */
  function Insert(es: LevelMap, key: string, wire: WireLevel): LevelMap {
    if es == [] || ExactDecimalLess(key, es[0].key) then [Entry(key, wire)] + es
    else if ExactDecimalLess(es[0].key, key) then [es[0]] + Insert(es[1..], key, wire)
    else [Entry(es[0].key, wire)] + es[1..]
  }

  /** `levels.erase(key)`. */
  function Remove(es: LevelMap, key: string): LevelMap {
    if es == [] || ExactDecimalLess(key, es[0].key) then es
    else if ExactDecimalLess(es[0].key, key) then [es[0]] + Remove(es[1..], key)
    else es[1..]
  }

  /** `truncate`, first loop: erase the highest ask while there are too many. */
  method TruncateAsks(asks: LevelMap, depth: nat) returns (kept: LevelMap)
    ensures kept == KeepFirst(asks, depth)
  {
    kept := asks;
    ghost var n := |asks|;
    while |kept| > depth
      invariant 0 <= n <= |asks| && kept == asks[..n]
      invariant n == |asks| || n >= depth
    {
      assert asks[..n][..n - 1] == asks[..n - 1];
      kept := kept[..|kept| - 1];
      n := n - 1;
    }
  }

  /** `truncate`, second loop: erase the lowest bid while there are too many. */
  method TruncateBids(bids: LevelMap, depth: nat) returns (kept: LevelMap)
    ensures kept == KeepLast(bids, depth)
  {
    kept := bids;
    ghost var n := 0;
    while |kept| > depth
      invariant 0 <= n <= |bids| && kept == bids[n..]
      invariant n == 0 || |bids| - n >= depth
      decreases |kept|
    {
      assert bids[n..][1..] == bids[n + 1..];
      kept := kept[1..];
      n := n + 1;
    }
  }

  // ---------- The same levels keyed by value ----------

  function Exact(es: LevelMap): Levels {
    if es == [] then [] else [Level(Value(es[0].key), es[0].wire)] + Exact(es[1..])
  }

  lemma {:induction false} ExactLength(es: LevelMap)
    ensures |Exact(es)| == |es|
  {
    if es != [] {
      ExactLength(es[1..]);
    }
  }

  lemma {:induction false} ExactDrop(es: LevelMap, n: nat)
    requires n <= |es|
    ensures |Exact(es)| == |es| && Exact(es[n..]) == Exact(es)[n..]
  {
    ExactLength(es);
    if n > 0 {
      assert es[n..] == es[1..][n - 1..];
      ExactDrop(es[1..], n - 1);
    }
  }

  lemma {:induction false} ExactTake(es: LevelMap, n: nat)
    requires n <= |es|
    ensures |Exact(es)| == |es| && Exact(es[..n]) == Exact(es)[..n]
  {
    ExactLength(es);
    if n > 0 {
      assert es[..n] == [es[0]] + es[1..][..n - 1];
      ExactCons(es[0], es[1..][..n - 1]);
      ExactTake(es[1..], n - 1);
    }
  }

  lemma {:induction false} ExactEntry(es: LevelMap, i: nat)
    requires i < |es|
    ensures |Exact(es)| == |es|
    ensures Exact(es)[i] == Level(Value(es[i].key), es[i].wire)
  {
    ExactLength(es);
    if i > 0 {
      ExactEntry(es[1..], i - 1);
    }
  }

  lemma {:induction false} ExactCons(e: Entry, rest: LevelMap)
    ensures Exact([e] + rest) == [Level(Value(e.key), e.wire)] + Exact(rest)
  {
    assert ([e] + rest)[1..] == rest;
  }

  /** Inserting under a canonical key is writing at its exact price. */
  lemma {:induction false} InsertIsPut(es: LevelMap, key: string, wire: WireLevel)
    requires CanonicalKeys(es) && IsCanonical(key)
    ensures CanonicalKeys(Insert(es, key, wire))
    ensures Exact(Insert(es, key, wire)) == Put(Exact(es), Value(key), wire)
  {
    if es == [] {
      ExactCons(Entry(key, wire), es);
    } else {
      var e, rest := es[0], es[1..];
      assert es == [e] + rest;
      ExactDecimalLessIsValueOrder(key, e.key);
      ExactDecimalLessIsValueOrder(e.key, key);
      PutCons(Level(Value(e.key), e.wire), Exact(rest), Value(key), wire);
      if ExactDecimalLess(key, e.key) {
        ExactCons(Entry(key, wire), es);
      } else if ExactDecimalLess(e.key, key) {
        InsertIsPut(rest, key, wire);
        ExactCons(e, Insert(rest, key, wire));
      } else {
        ExactCons(Entry(e.key, wire), rest);
      }
    }
  }

  /** Removing a canonical key is erasing its exact price. */
  lemma {:induction false} RemoveIsErase(es: LevelMap, key: string)
    requires CanonicalKeys(es) && IsCanonical(key)
    ensures CanonicalKeys(Remove(es, key))
    ensures Exact(Remove(es, key)) == Erase(Exact(es), Value(key))
  {
    if es != [] {
      var e, rest := es[0], es[1..];
      assert es == [e] + rest;
      ExactDecimalLessIsValueOrder(key, e.key);
      ExactDecimalLessIsValueOrder(e.key, key);
      EraseCons(Level(Value(e.key), e.wire), Exact(rest), Value(key));
      if ExactDecimalLess(e.key, key) {
        RemoveIsErase(rest, key);
        ExactCons(e, Remove(rest, key));
      }
    }
  }

  lemma {:induction false} KeepFirstIsKeepFirst(es: LevelMap, depth: nat)
    requires CanonicalKeys(es)
    ensures CanonicalKeys(KeepFirst(es, depth))
    ensures Exact(KeepFirst(es, depth)) == KeepFirst(Exact(es), depth)
  {
    ExactLength(es);
    if |es| > depth {
      ExactTake(es, depth);
    }
  }

  lemma {:induction false} KeepLastIsKeepLast(es: LevelMap, depth: nat)
    requires CanonicalKeys(es)
    ensures CanonicalKeys(KeepLast(es, depth))
    ensures Exact(KeepLast(es, depth)) == KeepLast(Exact(es), depth)
  {
    ExactLength(es);
    if |es| > depth {
      ExactDrop(es, |es| - depth);
    }
  }
}
