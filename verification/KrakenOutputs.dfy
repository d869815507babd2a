/**
 The texts and numbers derived from an exact book: the top-ten checksum input and
 the numeric book handed to consumers. CRC-32 and the decimal-to-double
 conversion are parameters.
 */
module KrakenOutputs {
  import opened Wrappers
  import opened Decimals
  import opened OrderBooks
  import opened SortedLevels
  import opened Truncation
  import opened KrakenLevels
  import opened KrakenBook

  // ---------- checksum_decimal ----------

  function WithoutPoints(s: string): string {
    if s == "" then ""
    else if s[|s| - 1] == '.' then WithoutPoints(s[..|s| - 1])
    else WithoutPoints(s[..|s| - 1]) + [s[|s| - 1]]
  }

  function ChecksumDecimal(s: string): string {
    var digits := DropLeadingZeros(WithoutPoints(s));
    if digits == "" then "0" else digits
  }

  method ReadChecksumDecimal(decimal: string) returns (r: string)
    ensures r == ChecksumDecimal(decimal)
  {
    var result := "";
    for i := 0 to |decimal|
      invariant result == WithoutPoints(decimal[..i])
    {
      assert decimal[..i + 1][..i] == decimal[..i];
      if decimal[i] != '.' {
        result := result + [decimal[i]];
      }
    }
    assert decimal[..|decimal|] == decimal;
    var first := 0;
    while first < |result| && result[first] == '0'
      invariant first <= |result|
      invariant DropLeadingZeros(result[first..]) == DropLeadingZeros(result)
    {
      assert result[first..][1..] == result[first + 1..];
      first := first + 1;
    }
    return if first == |result| then "0" else result[first..];
  }

  lemma {:induction false} WithoutPointsOfDigits(s: string)
    requires AllDigits(s)
    ensures WithoutPoints(s) == s
  {
    if s != "" {
      WithoutPointsOfDigits(s[..|s| - 1]);
    }
  }

  lemma {:induction false} WithoutPointsConcat(a: string, b: string)
    ensures WithoutPoints(a + b) == WithoutPoints(a) + WithoutPoints(b)
  {
    if b == "" {
      assert a + b == a;
    } else {
      assert (a + b)[..|a + b| - 1] == a + b[..|b| - 1];
      WithoutPointsConcat(a, b[..|b| - 1]);
    }
  }

  lemma {:induction false} PointDropped(fraction: string)
    ensures WithoutPoints("." + fraction) == WithoutPoints(fraction)
  {
    WithoutPointsConcat(".", fraction);
    assert "."[..0] == "";
    assert WithoutPoints(".") == "";
    assert "" + WithoutPoints(fraction) == WithoutPoints(fraction);
  }

  lemma {:induction false} SplitAtPoint(s: string)
    requires PointIndex(s) < |s|
    ensures s == IntegerPart(s) + ("." + FractionPart(s))
  {}

  lemma {:induction false} WithoutPointIsDigits(s: string)
    requires IsDecimal(s)
    ensures WithoutPoints(s) == IntegerPart(s) + FractionPart(s)
  {
    WithoutPointsOfDigits(IntegerPart(s));
    WithoutPointsOfDigits(FractionPart(s));
    if PointIndex(s) < |s| {
      SplitAtPoint(s);
      WithoutPointsConcat(IntegerPart(s), "." + FractionPart(s));
      PointDropped(FractionPart(s));
    } else {
      assert s == IntegerPart(s) && IntegerPart(s) + "" == IntegerPart(s);
    }
  }

  /** The checksum text is the decimal's digits read as one integer, without leading zeros. */
  lemma {:induction false} ChecksumDecimalIsDigitRun(s: string)
    requires IsDecimal(s)
    ensures IntegerValue(ChecksumDecimal(s)) == IntegerValue(IntegerPart(s) + FractionPart(s))
    ensures AllDigits(ChecksumDecimal(s)) && ChecksumDecimal(s) != ""
    ensures ChecksumDecimal(s)[0] == '0' ==> ChecksumDecimal(s) == "0"
  {
    WithoutPointIsDigits(s);
    LeadingZeros(IntegerPart(s) + FractionPart(s));
    ZeroText();
  }

  // ---------- checksum_input_for ----------

  function LevelInput(wire: WireLevel): string {
    ChecksumDecimal(wire.price) + ChecksumDecimal(wire.quantity)
  }

  /** The texts of the first `n` levels from the front, appended in turn. */
  function Upwards(before: string, es: LevelMap, text: WireLevel -> string, n: nat): string
    requires n <= |es|
  {
    if n == 0 then before else Upwards(before, es, text, n - 1) + text(es[n - 1].wire)
  }

  /** The texts of the first `n` levels from the back, appended in turn. */
  function Downwards(before: string, es: LevelMap, text: WireLevel -> string, n: nat): string
    requires n <= |es|
  {
    if n == 0 then before else Downwards(before, es, text, n - 1) + text(es[|es| - n].wire)
  }

  const TOP_LEVELS: nat := 10

  function Top(es: LevelMap): nat {
    if |es| < TOP_LEVELS then |es| else TOP_LEVELS
  }

  /** The asks upwards, then the bids downwards, at most ten of each. */
  function TopTexts(s: Sides, text: WireLevel -> string): string {
    Downwards(Upwards("", s.asks, text, Top(s.asks)), s.bids, text, Top(s.bids))
  }

  function ChecksumInput(s: Sides): string {
    TopTexts(s, LevelInput)
  }

  /** The function value that gives the text of every level. */
  ghost predicate GivesTexts(text: WireLevel -> string) {
    forall wire {:trigger LevelInput(wire)} :: text(wire) == LevelInput(wire)
  }

  method AppendLevel(input: string, wire: WireLevel, ghost text: WireLevel -> string) returns (r: string)
    requires GivesTexts(text)
    ensures r == input + text(wire)
  {
    var price := ReadChecksumDecimal(wire.price);
    var quantity := ReadChecksumDecimal(wire.quantity);
    assert input + price + quantity == input + LevelInput(wire);
    r := input + price + quantity;
  }

  lemma {:induction false} UpwardsNext(before: string, es: LevelMap, text: WireLevel -> string, n: nat)
    requires n < |es|
    ensures Upwards(before, es, text, n + 1) == Upwards(before, es, text, n) + text(es[n].wire)
  {}

  lemma {:induction false} DownwardsNext(before: string, es: LevelMap, text: WireLevel -> string, n: nat)
    requires n < |es|
    ensures Downwards(before, es, text, n + 1) == Downwards(before, es, text, n) + text(es[|es| - n - 1].wire)
  {}

  method AppendAsks(before: string, asks: LevelMap, ghost text: WireLevel -> string) returns (input: string)
    requires GivesTexts(text)
    ensures input == Upwards(before, asks, text, Top(asks))
  {
    input := before;
    var level, count := 0, 0;
    while level < |asks| && count < TOP_LEVELS
      invariant 0 <= level == count <= Top(asks)
      invariant input == Upwards(before, asks, text, count)
    {
      UpwardsNext(before, asks, text, count);
      input := AppendLevel(input, asks[level].wire, text);
      level, count := level + 1, count + 1;
    }
  }

  method AppendBids(before: string, bids: LevelMap, ghost text: WireLevel -> string) returns (input: string)
    requires GivesTexts(text)
    ensures input == Downwards(before, bids, text, Top(bids))
  {
    input := before;
    var level, count := |bids|, 0;
    while level > 0 && count < TOP_LEVELS
      invariant 0 <= count <= Top(bids) && level == |bids| - count
      invariant input == Downwards(before, bids, text, count)
    {
      level := level - 1;
      DownwardsNext(before, bids, text, count);
      input := AppendLevel(input, bids[level].wire, text);
      count := count + 1;
    }
  }

  method ChecksumInputFor(bids: LevelMap, asks: LevelMap) returns (input: string)
    ensures input == ChecksumInput(Sides(bids, asks))
  {
    input := AppendAsks("", asks, LevelInput);
    input := AppendBids(input, bids, LevelInput);
  }

  lemma {:induction false} UpwardsInPrefix(
      before: string, es: LevelMap, text: WireLevel -> string, n: nat, depth: nat)
    requires n <= depth <= |es|
    ensures Upwards(before, es[..depth], text, n) == Upwards(before, es, text, n)
  {
    if n > 0 {
      UpwardsInPrefix(before, es, text, n - 1, depth);
    }
  }

  lemma {:induction false} DownwardsInSuffix(
      before: string, es: LevelMap, text: WireLevel -> string, n: nat, dropped: nat)
    requires n + dropped <= |es|
    ensures Downwards(before, es[dropped..], text, n) == Downwards(before, es, text, n)
  {
    if n > 0 {
      DownwardsInSuffix(before, es, text, n - 1, dropped);
    }
  }

  /** Price and quantity of every level, in order, as checksum decimals. */
  function Texts(wires: seq<WireLevel>): string {
    if wires == [] then ""
    else
      var wire := wires[|wires| - 1];
      Texts(wires[..|wires| - 1]) + (ChecksumDecimal(wire.price) + ChecksumDecimal(wire.quantity))
  }

  function FirstWires(es: LevelMap, n: nat): (wires: seq<WireLevel>)
    requires n <= |es|
    ensures |wires| == n && forall i :: 0 <= i < n ==> wires[i] == es[i].wire
  {
    if n == 0 then [] else FirstWires(es, n - 1) + [es[n - 1].wire]
  }

  function LastWires(es: LevelMap, n: nat): (wires: seq<WireLevel>)
    requires n <= |es|
    ensures |wires| == n && forall i :: 0 <= i < n ==> wires[i] == es[|es| - 1 - i].wire
  {
    if n == 0 then [] else LastWires(es, n - 1) + [es[|es| - n].wire]
  }

  lemma {:induction false} TextsSnoc(wires: seq<WireLevel>, wire: WireLevel)
    ensures Texts(wires + [wire]) == Texts(wires) + LevelInput(wire)
  {
    assert (wires + [wire])[..|wires|] == wires;
  }

  lemma {:induction false} UpwardsTexts(es: LevelMap, n: nat)
    requires n <= |es|
    ensures Upwards("", es, LevelInput, n) == Texts(FirstWires(es, n))
  {
    if n > 0 {
      UpwardsTexts(es, n - 1);
      TextsSnoc(FirstWires(es, n - 1), es[n - 1].wire);
    }
  }

  lemma {:induction false} DownwardsTexts(done: seq<WireLevel>, es: LevelMap, n: nat)
    requires n <= |es|
    ensures Downwards(Texts(done), es, LevelInput, n) == Texts(done + LastWires(es, n))
  {
    if n == 0 {
      assert done + [] == done;
    } else {
      var before, wire := done + LastWires(es, n - 1), es[|es| - n].wire;
      assert done + LastWires(es, n) == before + [wire];
      assert Downwards(Texts(done), es, LevelInput, n) == Texts(before) + LevelInput(wire) by {
        DownwardsTexts(done, es, n - 1);
      }
      TextsSnoc(before, wire);
    }
  }

  /** The checksum input spells the ten lowest asks upwards, then the ten highest bids downwards, or all there are. */
  lemma {:induction false} ChecksumInputIsTopTen(s: Sides)
    ensures var asks, bids := if |s.asks| < 10 then |s.asks| else 10, if |s.bids| < 10 then |s.bids| else 10;
      ChecksumInput(s) == Texts(FirstWires(s.asks, asks) + LastWires(s.bids, bids))
  {
    UpwardsTexts(s.asks, Top(s.asks));
    DownwardsTexts(FirstWires(s.asks, Top(s.asks)), s.bids, Top(s.bids));
  }

  predicate SupportedDepth(depth: nat) {
    depth == 10 || depth == 25 || depth == 100 || depth == 500 || depth == 1000
  }

  lemma {:induction false} TruncationKeepsTopTexts(s: Sides, text: WireLevel -> string, depth: nat)
    requires depth >= TOP_LEVELS
    ensures TopTexts(Sides(KeepLast(s.bids, depth), KeepFirst(s.asks, depth)), text) == TopTexts(s, text)
  {
    if |s.asks| > depth {
      UpwardsInPrefix("", s.asks, text, TOP_LEVELS, depth);
    }
    if |s.bids| > depth {
      DownwardsInSuffix(Upwards("", s.asks, text, Top(s.asks)), s.bids, text, TOP_LEVELS, |s.bids| - depth);
    }
  }

  type BookDepth = depth: nat | SupportedDepth(depth) witness 10

  /** For every supported depth truncation leaves the checksum input as it was. */
  lemma {:induction false} TruncationKeepsChecksumInput(s: Sides, depth: BookDepth)
    ensures ChecksumInput(Sides(KeepLast(s.bids, depth), KeepFirst(s.asks, depth))) == ChecksumInput(s)
  {
    assert SupportedDepth(depth);
    TruncationKeepsTopTexts(s, LevelInput, depth);
  }

  // ---------- numeric_book_for ----------

  /** `visualization_decimal`: `None` when the text has no finite double. */
  type Conversion = string -> Option<real>

  function NumericLevel(book: Book, side: BookSide, e: KrakenLevels.Entry, convert: Conversion): Option<Book> {
    match (convert(e.wire.price), convert(e.wire.quantity))
    case (Some(price), Some(quantity)) => Some(ApplyUpdate(book, BookUpdate(side, price, quantity)))
    case _ => None
  }

  /** The entries applied in iteration order. */
  function NumericSide(book: Book, side: BookSide, es: LevelMap, convert: Conversion): Option<Book> {
    if es == [] then Some(book)
    else match NumericSide(book, side, es[..|es| - 1], convert)
      case None => None
      case Some(b) => NumericLevel(b, side, es[|es| - 1], convert)
  }

  function NumericBook(s: Sides, convert: Conversion): Option<Book> {
    match NumericSide(EMPTY_BOOK, BookSide.Bid, s.bids, convert)
    case None => None
    case Some(book) => NumericSide(book, Offer, s.asks, convert)
  }

  method BuildSide(book: OrderBook, side: BookSide, es: LevelMap, convert: Conversion) returns (ok: bool)
    modifies book
    ensures ok <==> NumericSide(old(book.Contents()), side, es, convert).Some?
    ensures ok ==> NumericSide(old(book.Contents()), side, es, convert) == Some(book.Contents())
  {
    for i := 0 to |es|
      invariant NumericSide(old(book.Contents()), side, es[..i], convert) == Some(book.Contents())
    {
      assert es[..i + 1][..i] == es[..i];
      var price, quantity := convert(es[i].wire.price), convert(es[i].wire.quantity);
      if price.None? || quantity.None? {
        NumericSideFails(old(book.Contents()), side, es, i + 1, convert);
        return false;
      }
      book.Apply(side, price.value, quantity.value);
    }
    assert es[..|es|] == es;
    return true;
  }

  lemma {:induction false} NumericSideFails(book: Book, side: BookSide, es: LevelMap, n: nat, convert: Conversion)
    requires n <= |es| && NumericSide(book, side, es[..n], convert) == None
    ensures NumericSide(book, side, es, convert) == None
    decreases |es|
  {
    if n < |es| {
      assert es[..|es| - 1][..n] == es[..n];
      NumericSideFails(book, side, es[..|es| - 1], n, convert);
    } else {
      assert es[..n] == es;
    }
  }

  predicate AllConvert(es: LevelMap, convert: Conversion) {
    forall i :: 0 <= i < |es| ==> convert(es[i].wire.price).Some? && convert(es[i].wire.quantity).Some?
  }

  /** The levels as updates of the numeric book, in iteration order. */
  function Images(es: LevelMap, side: BookSide, convert: Conversion): (us: seq<BookUpdate>)
    requires AllConvert(es, convert)
    ensures |us| == |es|
    ensures forall i :: 0 <= i < |es| ==>
      us[i].side == side && convert(es[i].wire.price) == Some(us[i].price)
      && convert(es[i].wire.quantity) == Some(us[i].quantity)
  {
    if es == [] then []
    else
      var wire := es[|es| - 1].wire;
      var image := BookUpdate(side, convert(wire.price).value, convert(wire.quantity).value);
      Images(es[..|es| - 1], side, convert) + [image]
  }

  lemma {:induction false} NumericSideApplies(book: Book, side: BookSide, es: LevelMap, convert: Conversion)
    ensures NumericSide(book, side, es, convert).Some? <==> AllConvert(es, convert)
    ensures AllConvert(es, convert) ==>
      NumericSide(book, side, es, convert) == Some(ApplyUpdates(book, Images(es, side, convert)))
  {
    if es != [] {
      var front, e := es[..|es| - 1], es[|es| - 1];
      assert es == front + [e];
      NumericSideApplies(book, side, front, convert);
      if AllConvert(es, convert) {
        assert Images(es, side, convert)[..|es| - 1] == Images(front, side, convert);
      }
    }
  }

  lemma {:induction false} OtherSideKept(initial: Option<real>, us: seq<BookUpdate>, side: BookSide, price: real)
    requires forall i :: 0 <= i < |us| ==> us[i].side != side
    ensures LastQuantity(initial, us, side, price) == initial
  {
    if us != [] {
      OtherSideKept(initial, us[..|us| - 1], side, price);
    }
  }

  /**
   There is a numeric book exactly when every text has an image; at every price it then
   has the image of the quantity of the last level of that side with that price image.
   */
  lemma {:induction false} NumericBookHoldsImages(s: Sides, convert: Conversion, price: real)
    ensures NumericBook(s, convert).Some? <==> AllConvert(s.bids, convert) && AllConvert(s.asks, convert)
    ensures NumericBook(s, convert).Some? ==>
      var book, bid := NumericBook(s, convert).value, BookSide.Bid;
      && At(book, bid, price) == LastQuantity(None, Images(s.bids, bid, convert), bid, price)
      && At(book, Offer, price) == LastQuantity(None, Images(s.asks, Offer, convert), Offer, price)
  {
    var bid := BookSide.Bid;
    NumericSideApplies(EMPTY_BOOK, bid, s.bids, convert);
    if AllConvert(s.bids, convert) {
      var bids := Images(s.bids, bid, convert);
      var half := ApplyUpdates(EMPTY_BOOK, bids);
      NumericSideApplies(half, Offer, s.asks, convert);
      BookHoldsLastQuantities(EMPTY_BOOK, bids, bid, price);
      BookHoldsLastQuantities(EMPTY_BOOK, bids, Offer, price);
      OtherSideKept(None, bids, Offer, price);
      if AllConvert(s.asks, convert) {
        var asks := Images(s.asks, Offer, convert);
        BookHoldsLastQuantities(half, asks, bid, price);
        BookHoldsLastQuantities(half, asks, Offer, price);
        OtherSideKept(At(half, bid, price), asks, bid, price);
      }
    }
  }

  method NumericBookFor(bids: LevelMap, asks: LevelMap, convert: Conversion) returns (r: Option<Book>)
    ensures r == NumericBook(Sides(bids, asks), convert)
  {
    var book := new OrderBook();
    var ok := BuildSide(book, BookSide.Bid, bids, convert);
    if !ok {
      return None;
    }
    ok := BuildSide(book, Offer, asks, convert);
    if !ok {
      return None;
    }
    return Some(book.Contents());
  }
}
