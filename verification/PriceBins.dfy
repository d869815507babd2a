/**
 Sorting book levels into price bins, in exact arithmetic with the rounding
 tolerance of `stable_floor` as a parameter.
 */
module PriceBins {
  import opened OrderBooks

  function Abs(x: real): real {
    if x < 0.0 then -x else x
  }

  /** `std::round`: halves away from zero. */
  function Round(x: real): int {
    if x < 0.0 then -((0.5 - x).Floor) else (x + 0.5).Floor
  }

  /** The relative tolerance; `epsilon` stands for eight times the machine epsilon. */
  function Tolerance(value: real, epsilon: real): real {
    if Abs(value) < 1.0 then epsilon else epsilon * Abs(value)
  }

  function StableFloor(value: real, epsilon: real): int {
    if Abs(value - Round(value) as real) <= Tolerance(value, epsilon) then Round(value) else value.Floor
  }

  lemma {:induction false} RoundIsNearest(x: real)
    ensures x - 0.5 <= Round(x) as real <= x + 0.5
  {}

  /** With a tolerance below one half, a value lies in its stable bin up to that tolerance. */
  lemma {:induction false} StableFloorBounds(value: real, epsilon: real)
    requires 0.0 <= Tolerance(value, epsilon) < 0.5
    ensures StableFloor(value, epsilon) as real - Tolerance(value, epsilon) <= value
    ensures value < StableFloor(value, epsilon) as real + 1.0
    ensures StableFloor(value, epsilon) == value.Floor || StableFloor(value, epsilon) == value.Floor + 1
    ensures StableFloor(value, epsilon) == value.Floor + 1 <==>
      0.0 < value.Floor as real + 1.0 - value <= Tolerance(value, epsilon)
  {
    RoundIsNearest(value);
  }

  lemma {:induction false} ExactFloorAtZeroTolerance(value: real)
    ensures StableFloor(value, 0.0) == value.Floor
  {
    RoundIsNearest(value);
  }

  // ---------- Sums of quantities ----------

  function SumOver(levels: Side, prices: set<real>): real
    requires prices <= levels.Keys
    decreases |prices|
  {
    if prices == {} then 0.0
    else
      var p := Lowest(prices);
      levels[p] + SumOver(levels, prices - {p})
  }

  /** Any price can be taken out first. */
  lemma {:induction false} SumWithout(levels: Side, prices: set<real>, x: real)
    requires prices <= levels.Keys && x in prices
    ensures SumOver(levels, prices) == levels[x] + SumOver(levels, prices - {x})
    decreases |prices|
  {
    var p := Lowest(prices);
    if x != p {
      SumWithout(levels, prices - {p}, x);
      assert prices - {x} - {p} == prices - {p} - {x};
      assert Lowest(prices - {x}) == p;
    }
  }

  lemma {:induction false} SumUnion(levels: Side, a: set<real>, b: set<real>)
    requires a <= levels.Keys && b <= levels.Keys && a !! b
    ensures SumOver(levels, a + b) == SumOver(levels, a) + SumOver(levels, b)
    decreases |a|
  {
    if a == {} {
      assert a + b == b;
    } else {
      var p := Lowest(a);
      SumWithout(levels, a + b, p);
      assert a + b - {p} == (a - {p}) + b;
      SumUnion(levels, a - {p}, b);
    }
  }

  // ---------- accumulate_levels ----------

  /** The window of consecutive bins one column covers. */
  datatype Window = Window(firstBin: int, size: real, count: nat, epsilon: real)
  {
    predicate Valid() {
      size > 0.0 && count > 0 && epsilon >= 0.0
    }

    function Bin(price: real): int
      requires size > 0.0
    {
      StableFloor(price / size, epsilon)
    }

    function FirstPrice(): real {
      firstBin as real * size
    }

    function EndPrice(): real {
      FirstPrice() + count as real * size
    }

    /** The levels the loop visits: from the first price up to the end price. */
    function InRange(levels: Side): set<real> {
      set p | p in levels.Keys && FirstPrice() <= p < EndPrice()
    }

    /** The visited levels that belong to one bin. */
    function InBin(levels: Side, k: int): set<real>
      requires size > 0.0
    {
      set p | p in InRange(levels) && Bin(p) - firstBin == k
    }

    function BinTotal(levels: Side, k: int): real
      requires size > 0.0
    {
      SumOver(levels, InBin(levels, k))
    }

    /** One total per bin: what `accumulate_levels` leaves in a zeroed vector. */
    function Totals(levels: Side): (totals: seq<real>)
      requires size > 0.0
      ensures |totals| == count
      ensures forall k :: 0 <= k < count ==> totals[k] == BinTotal(levels, k)
    {
      seq(count, k requires 0 <= k < count => BinTotal(levels, k))
    }
  }

  method AccumulateLevels(levels: Side, w: Window, quantities: array<real>)
    requires w.Valid() && quantities.Length == w.count
    modifies quantities
    ensures forall k :: 0 <= k < w.count ==> quantities[k] == old(quantities[k]) + w.BinTotal(levels, k)
  {
    var remaining := w.InRange(levels);
    assert forall k :: remaining * w.InBin(levels, k) == w.InBin(levels, k);
    while remaining != {}
      invariant remaining <= w.InRange(levels)
      invariant forall k :: 0 <= k < w.count ==>
        quantities[k] + SumOver(levels, remaining * w.InBin(levels, k)) == old(quantities[k]) + w.BinTotal(levels, k)
      decreases |remaining|
    {
      var price := Lowest(remaining);
      var offset := w.Bin(price) - w.firstBin;
      ghost var before := remaining;
      forall k | 0 <= k < w.count
        ensures SumOver(levels, before * w.InBin(levels, k))
          == SumOver(levels, (before - {price}) * w.InBin(levels, k)) + (if k == offset then levels[price] else 0.0)
      {
        RemoveFromBin(levels, w, before, price, k);
      }
      remaining := remaining - {price};
      if 0 <= offset && offset < w.count {
        quantities[offset] := quantities[offset] + levels[price];
      }
    }
    assert forall k :: {} * w.InBin(levels, k) == {};
  }

  lemma {:induction false} RemoveFromBin(levels: Side, w: Window, remaining: set<real>, price: real, k: int)
    requires w.Valid() && remaining <= w.InRange(levels) && price in remaining
    ensures SumOver(levels, remaining * w.InBin(levels, k))
      == SumOver(levels, (remaining - {price}) * w.InBin(levels, k))
         + (if k == w.Bin(price) - w.firstBin then levels[price] else 0.0)
  {
    var here := remaining * w.InBin(levels, k);
    if k == w.Bin(price) - w.firstBin {
      SumWithout(levels, here, price);
      assert here - {price} == (remaining - {price}) * w.InBin(levels, k);
    } else {
      assert here == (remaining - {price}) * w.InBin(levels, k);
    }
  }

  // ---------- Conservation ----------

  function Total(values: seq<real>): real {
    if values == [] then 0.0 else Total(values[..|values| - 1]) + values[|values| - 1]
  }

  function InBinsBelow(levels: Side, w: Window, n: int): set<real>
    requires w.size > 0.0
  {
    set p | p in w.InRange(levels) && 0 <= w.Bin(p) - w.firstBin < n
  }

  lemma {:induction false} TotalsPrefix(levels: Side, w: Window, n: nat)
    requires w.Valid() && n <= w.count
    ensures Total(w.Totals(levels)[..n]) == SumOver(levels, InBinsBelow(levels, w, n))
  {
    if n == 0 {
      assert InBinsBelow(levels, w, 0) == {};
    } else {
      var totals := w.Totals(levels);
      TotalsPrefix(levels, w, n - 1);
      assert totals[..n][..n - 1] == totals[..n - 1];
      assert InBinsBelow(levels, w, n) == InBinsBelow(levels, w, n - 1) + w.InBin(levels, n - 1);
      SumUnion(levels, InBinsBelow(levels, w, n - 1), w.InBin(levels, n - 1));
    }
  }

  /** Nothing is lost or counted twice: the bins together hold every visited level whose bin is in the window. */
  lemma {:induction false} BinsConserveQuantity(levels: Side, w: Window)
    requires w.Valid()
    ensures Total(w.Totals(levels)) == SumOver(levels, InBinsBelow(levels, w, w.count))
  {
    TotalsPrefix(levels, w, w.count);
    assert w.Totals(levels)[..w.count] == w.Totals(levels);
  }

  predicate SmallTolerance(w: Window, price: real)
    requires w.size > 0.0
  {
    Tolerance(price / w.size, w.epsilon) < 0.5
  }

  lemma {:induction false} ScaleBound(price: real, size: real, bin: int)
    requires size > 0.0
    ensures bin as real * size <= price <==> bin as real <= price / size
    ensures price < bin as real * size <==> price / size < bin as real
  {
    var q := price / size;
    assert price == q * size;
    if bin as real <= q {
      assert bin as real * size <= q * size;
    } else {
      assert q * size < bin as real * size;
    }
  }

  /**
   A visited level is left out only when it lies within the tolerance below the end
   price, where `stable_floor` moves it into the first bin after the window.
   */
  lemma {:induction false} OnlyTheEdgeIsDropped(levels: Side, w: Window, price: real)
    requires w.Valid() && price in w.InRange(levels) && SmallTolerance(w, price)
    ensures 0 <= w.Bin(price) - w.firstBin <= w.count
    ensures w.Bin(price) - w.firstBin == w.count <==>
      (w.firstBin + w.count) as real - price / w.size <= Tolerance(price / w.size, w.epsilon)
  {
    var v := price / w.size;
    var last := w.firstBin + w.count;
    assert w.firstBin as real <= v < last as real by {
      EndOfWindow(w);
      ScaleBound(price, w.size, w.firstBin);
      ScaleBound(price, w.size, last);
    }
    ToleranceIsAtLeast(v, w.epsilon);
    StableFloorBounds(v, w.epsilon);
    assert w.firstBin <= v.Floor < last;
  }

  /** A price within the tolerance below the end price. */
  function EdgePrice(w: Window): real {
    ((w.firstBin + w.count) as real - if w.epsilon < 0.25 then w.epsilon else 0.25) * w.size
  }

  lemma {:induction false} EdgeBin(w: Window)
    requires w.Valid() && w.epsilon > 0.0
    ensures w.FirstPrice() <= EdgePrice(w) < w.EndPrice() && w.Bin(EdgePrice(w)) == w.firstBin + w.count
  {
    var last := w.firstBin + w.count;
    var v := last as real - if w.epsilon < 0.25 then w.epsilon else 0.25;
    assert EdgePrice(w) / w.size == v;
    EndOfWindow(w);
    ScaleBound(EdgePrice(w), w.size, w.firstBin);
    ScaleBound(EdgePrice(w), w.size, last);
    EdgeRounds(v, last, w.epsilon);
  }

  lemma {:induction false} EdgeRounds(v: real, last: int, epsilon: real)
    requires 0.0 < last as real - v <= 0.25 && last as real - v <= epsilon
    ensures StableFloor(v, epsilon) == last
  {
    RoundIsNearest(v);
    ToleranceIsAtLeast(v, epsilon);
    assert Round(v) == last;
  }

  lemma {:induction false} ToleranceIsAtLeast(value: real, epsilon: real)
    requires epsilon >= 0.0
    ensures Tolerance(value, epsilon) >= epsilon
  {
    if Abs(value) >= 1.0 {
      var more := Abs(value) - 1.0;
      assert epsilon * more >= 0.0;
      assert epsilon * Abs(value) == epsilon + epsilon * more;
    }
  }

  /** In every window with a positive tolerance, a single level at that price is visited and counted nowhere. */
  lemma {:induction false} EdgeLevelIsLost(w: Window, quantity: real)
    requires w.Valid() && w.epsilon > 0.0
    ensures var levels := map[EdgePrice(w) := quantity];
      w.InRange(levels) == {EdgePrice(w)} && Total(w.Totals(levels)) == 0.0
  {
    var levels := map[EdgePrice(w) := quantity];
    EdgeBin(w);
    BinsConserveQuantity(levels, w);
    assert InBinsBelow(levels, w, w.count) == {};
  }

  lemma {:induction false} EndOfWindow(w: Window)
    ensures w.EndPrice() == (w.firstBin + w.count) as real * w.size
  {
    assert (w.firstBin as real + w.count as real) * w.size == w.firstBin as real * w.size + w.count as real * w.size;
  }

  lemma {:induction false} VisitedBinAtZeroTolerance(levels: Side, w: Window, price: real)
    requires w.Valid() && w.epsilon == 0.0 && price in w.InRange(levels)
    ensures 0 <= w.Bin(price) - w.firstBin < w.count
  {
    ExactFloorAtZeroTolerance(price / w.size);
    EndOfWindow(w);
    ScaleBound(price, w.size, w.firstBin);
    ScaleBound(price, w.size, w.firstBin + w.count);
  }

  /** At zero tolerance the bins hold exactly all visited levels. */
  lemma {:induction false} BinsHoldEverythingAtZeroTolerance(levels: Side, w: Window)
    requires w.Valid() && w.epsilon == 0.0
    ensures Total(w.Totals(levels)) == SumOver(levels, w.InRange(levels))
  {
    BinsConserveQuantity(levels, w);
    forall p | p in w.InRange(levels) ensures p in InBinsBelow(levels, w, w.count) {
      VisitedBinAtZeroTolerance(levels, w, p);
    }
    assert InBinsBelow(levels, w, w.count) == w.InRange(levels);
  }

  /** Every price lies in the interval of its own bin, up to the tolerance. */
  lemma {:induction false} PriceLiesInItsBin(w: Window, price: real)
    requires w.Valid() && SmallTolerance(w, price)
    ensures w.Bin(price) as real * w.size - Tolerance(price / w.size, w.epsilon) * w.size <= price
    ensures price < w.Bin(price) as real * w.size + w.size
  {
    var v := price / w.size;
    assert Tolerance(v, w.epsilon) >= 0.0 by {
      ToleranceIsAtLeast(v, w.epsilon);
    }
    assert v * w.size == price by {
      Rescale(price, w.size);
    }
    BinHoldsScaled(v, w.size, w.epsilon, price);
  }

  lemma {:induction false} BinHoldsScaled(v: real, size: real, epsilon: real, price: real)
    requires size > 0.0 && v * size == price && 0.0 <= Tolerance(v, epsilon) < 0.5
    ensures StableFloor(v, epsilon) as real * size - Tolerance(v, epsilon) * size <= price
    ensures price < StableFloor(v, epsilon) as real * size + size
  {
    StableFloorBounds(v, epsilon);
    ScaleLower(price, v, size, StableFloor(v, epsilon) as real, Tolerance(v, epsilon));
    ScaleUpper(price, v, size, StableFloor(v, epsilon) as real);
  }

  /** A window centred on the midpoint's bin has the midpoint in its centre bin, up to the tolerance. */
  lemma {:induction false} MidpointIsCentred(w: Window, mid: real)
    requires w.Valid() && w.count % 2 == 1 && SmallTolerance(w, mid)
    requires w.firstBin == w.Bin(mid) - w.count / 2
    ensures w.Bin(mid) - w.firstBin == w.count / 2 < w.count
    ensures var centre := (w.firstBin + w.count / 2) as real * w.size;
      centre - Tolerance(mid / w.size, w.epsilon) * w.size <= mid < centre + w.size
  {
    assert w.firstBin + w.count / 2 == w.Bin(mid);
    PriceLiesInItsBin(w, mid);
  }

  lemma {:induction false} Rescale(price: real, size: real)
    requires size > 0.0
    ensures price / size * size == price
  {}

  lemma {:induction false} ScaleLower(price: real, v: real, size: real, c: real, t: real)
    requires size > 0.0 && c - t <= v && v * size == price
    ensures c * size - t * size <= price
  {
    var d := v - c + t;
    assert d * size >= 0.0;
    assert d * size == v * size - c * size + t * size;
  }

  lemma {:induction false} ScaleUpper(price: real, v: real, size: real, c: real)
    requires size > 0.0 && v < c + 1.0 && v * size == price
    ensures price < c * size + size
  {
    var d := c + 1.0 - v;
    assert d * size > 0.0;
    assert d * size == c * size + size - v * size;
  }
}
