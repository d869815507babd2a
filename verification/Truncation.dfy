/** Keeping a bounded number of elements from either end of a sequence. */
module Truncation {
  /** The first `n` elements: what is left of the asks. */
  function KeepFirst<T>(s: seq<T>, n: nat): seq<T> {
    if |s| <= n then s else s[..n]
  }

  /** The last `n` elements: what is left of the bids, and of a rolling window. */
  function KeepLast<T>(s: seq<T>, n: nat): seq<T> {
    if |s| <= n then s else s[|s| - n..]
  }

  lemma {:induction false} KeepFirstCons<T>(x: T, rest: seq<T>, n: nat)
    requires n > 0
    ensures KeepFirst([x] + rest, n) == [x] + KeepFirst(rest, n - 1)
  {}

  lemma {:induction false} KeepFirstTwice<T>(s: seq<T>, n: nat)
    requires n > 0
    ensures KeepFirst(KeepFirst(s, n), n - 1) == KeepFirst(s, n - 1)
  {}

  lemma {:induction false} KeepLastSnoc<T>(rest: seq<T>, x: T, n: nat)
    requires n > 0
    ensures KeepLast(rest + [x], n) == KeepLast(rest, n - 1) + [x]
  {}

  lemma {:induction false} KeepLastTwice<T>(s: seq<T>, n: nat)
    requires n > 0
    ensures KeepLast(KeepLast(s, n), n - 1) == KeepLast(s, n - 1)
  {}

  lemma {:induction false} KeepLastShort<T>(s: seq<T>, n: nat)
    ensures KeepLast(KeepLast(s, n), n) == KeepLast(s, n)
  {}

  lemma {:induction false} KeepLastAppend<T>(s: seq<T>, x: T, n: nat)
    requires n > 0
    ensures KeepLast(KeepLast(s, n) + [x], n) == KeepLast(s + [x], n)
  {
    KeepLastSnoc(s, x, n);
    KeepLastSnoc(KeepLast(s, n), x, n);
    KeepLastTwice(s, n);
  }

  /** Evicting early makes no difference to what is finally kept. */
  lemma {:induction false} KeepLastConcat<T>(s: seq<T>, t: seq<T>, n: nat)
    ensures KeepLast(KeepLast(s, n) + t, n) == KeepLast(s + t, n)
  {
    if |t| < n {
      if |s| > n {
        assert s[|s| - n..] + t == (s + t)[|s| - n..];
      }
    } else {
      assert KeepLast(s + t, n) == t[|t| - n..];
      assert KeepLast(KeepLast(s, n) + t, n) == t[|t| - n..];
    }
  }
}
