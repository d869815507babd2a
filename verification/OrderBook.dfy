/** The aggregated book: one ordered map from price to quantity per side. */
module OrderBooks {
  import opened Wrappers

  datatype BookSide = Bid | Offer

  type Side = map<real, real>

  /** The value of a book, which events and consumers copy. */
  datatype Book = Book(bids: Side, asks: Side)

  const EMPTY_BOOK := Book(map[], map[])

  datatype BookUpdate = BookUpdate(side: BookSide, price: real, quantity: real)

  function ApplyLevel(levels: Side, price: real, quantity: real): Side {
    if quantity == 0.0 then levels - {price} else levels[price := quantity]
  }

  function ApplyUpdate(book: Book, u: BookUpdate): Book {
    if u.side.Bid? then book.(bids := ApplyLevel(book.bids, u.price, u.quantity))
    else book.(asks := ApplyLevel(book.asks, u.price, u.quantity))
  }

  /** All updates of one message, in order. */
  function ApplyUpdates(book: Book, updates: seq<BookUpdate>): Book {
    if updates == [] then book
    else ApplyUpdate(ApplyUpdates(book, updates[..|updates| - 1]), updates[|updates| - 1])
  }

  lemma {:induction false} Inhabited(keys: set<real>)
    requires keys != {}
    ensures exists k :: k in keys
  {
    if forall k :: k !in keys {
      assert false;
    }
  }

  lemma {:induction false} MaxExists(keys: set<real>)
    requires keys != {}
    ensures exists k :: k in keys && forall j :: j in keys ==> j <= k
  {
    Inhabited(keys);
    var x :| x in keys;
    if keys != {x} {
      MaxExists(keys - {x});
      var m :| m in keys - {x} && forall j :: j in keys - {x} ==> j <= m;
      assert (if x < m then m else x) in keys;
      assert forall j :: j in keys ==> j == x || j in keys - {x};
    }
  }

  lemma {:induction false} MinExists(keys: set<real>)
    requires keys != {}
    ensures exists k :: k in keys && forall j :: j in keys ==> k <= j
  {
    Inhabited(keys);
    var x :| x in keys;
    if keys != {x} {
      MinExists(keys - {x});
      var m :| m in keys - {x} && forall j :: j in keys - {x} ==> m <= j;
      assert (if m < x then m else x) in keys;
      assert forall j :: j in keys ==> j == x || j in keys - {x};
    }
  }

  /** `rbegin()->first` of a non-empty ordered map. */
  function Highest(keys: set<real>): (k: real)
    requires keys != {}
    ensures k in keys && forall j :: j in keys ==> j <= k
  {
    MaxExists(keys);
    var k :| k in keys && forall j :: j in keys ==> j <= k;
    k
  }

  /** `begin()->first` of a non-empty ordered map. */
  function Lowest(keys: set<real>): (k: real)
    requires keys != {}
    ensures k in keys && forall j :: j in keys ==> k <= j
  {
    MinExists(keys);
    var k :| k in keys && forall j :: j in keys ==> k <= j;
    k
  }

  function BestBid(book: Book): Option<real> {
    if book.bids.Keys == {} then None else Some(Highest(book.bids.Keys))
  }

  function BestAsk(book: Book): Option<real> {
    if book.asks.Keys == {} then None else Some(Lowest(book.asks.Keys))
  }

  class OrderBook {
    var bids: Side
    var asks: Side

    constructor ()
      ensures Contents() == EMPTY_BOOK
    {
      bids, asks := map[], map[];
    }

    function Contents(): Book
      reads this
    {
      Book(bids, asks)
    }

    method Clear()
      modifies this
      ensures Contents() == EMPTY_BOOK
    {
      bids, asks := map[], map[];
    }

    method Apply(side: BookSide, price: real, quantity: real)
      modifies this
      ensures Contents() == ApplyUpdate(old(Contents()), BookUpdate(side, price, quantity))
    {
      match side {
        case Bid =>
          if quantity == 0.0 {
            bids := bids - {price};
          } else {
            bids := bids[price := quantity];
          }
        case Offer =>
          if quantity == 0.0 {
            asks := asks - {price};
          } else {
            asks := asks[price := quantity];
          }
      }
    }
  }

  // ---------- What a run of updates leaves in the book ----------

  /** The quantity the last update at this price left behind, if that was not a removal. */
  function LastQuantity(initial: Option<real>, updates: seq<BookUpdate>, side: BookSide, price: real): Option<real> {
    if updates == [] then initial
    else
      var u := updates[|updates| - 1];
      if u.side == side && u.price == price then
        if u.quantity == 0.0 then None else Some(u.quantity)
      else LastQuantity(initial, updates[..|updates| - 1], side, price)
  }

  function At(book: Book, side: BookSide, price: real): Option<real> {
    var levels := if side.Bid? then book.bids else book.asks;
    if price in levels then Some(levels[price]) else None
  }

  /** At every price the book holds the last quantity written there, and nothing after a zero. */
  lemma {:induction false} BookHoldsLastQuantities(book: Book, updates: seq<BookUpdate>, side: BookSide, price: real)
    ensures At(ApplyUpdates(book, updates), side, price) == LastQuantity(At(book, side, price), updates, side, price)
  {
    if updates != [] {
      BookHoldsLastQuantities(book, updates[..|updates| - 1], side, price);
    }
  }
}
