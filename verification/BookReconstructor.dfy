/** The sequence-gated reconstruction of one product's book. */
module BookReconstructors {
  import opened Wrappers
  import opened OrderBooks
  import opened VenueEvents
  import opened SequenceTrackers

  datatype BookEventType = SnapshotMessage | UpdateMessage

  datatype BookMessage = BookMessage(product: Product, kind: BookEventType, timestamp: int, updates: seq<BookUpdate>)

  datatype Reconstruction = Reconstruction(book: Book, synchronized: bool)

  const UNSYNCHRONIZED := Reconstruction(EMPTY_BOOK, false)

  predicate Applies(s: Reconstruction, m: BookMessage, status: SequenceStatus) {
    if m.kind.SnapshotMessage? then status != Duplicate && status != SequenceStatus.Stale
    else status == InOrder && s.synchronized
  }

  /** What an applied message leaves: a snapshot starts from the empty book. */
  function Applied(book: Book, m: BookMessage): Book {
    ApplyUpdates(if m.kind.SnapshotMessage? then EMPTY_BOOK else book, m.updates)
  }

  function Reconstruct(s: Reconstruction, m: BookMessage, status: SequenceStatus): Reconstruction {
    if Applies(s, m, status) then Reconstruction(Applied(s.book, m), true)
    else if m.kind.UpdateMessage? && status == Gap then s.(synchronized := false)
    else s
  }

  class BookReconstructor {
    const book: OrderBook
    var synchronized: bool

    constructor ()
      ensures fresh(book) && State() == UNSYNCHRONIZED
    {
      book := new OrderBook();
      synchronized := false;
    }

    function State(): Reconstruction
      reads this, book
    {
      Reconstruction(book.Contents(), synchronized)
    }

    method ApplyMessage(m: BookMessage)
      modifies book
      ensures book.Contents() == ApplyUpdates(old(book.Contents()), m.updates)
    {
      for i := 0 to |m.updates|
        invariant book.Contents() == ApplyUpdates(old(book.Contents()), m.updates[..i])
      {
        var u := m.updates[i];
        book.Apply(u.side, u.price, u.quantity);
        assert m.updates[..i + 1][..i] == m.updates[..i];
      }
      assert m.updates[..|m.updates|] == m.updates;
    }

    method Process(m: BookMessage, status: SequenceStatus) returns (applied: bool)
      modifies this, book
      ensures applied == Applies(old(State()), m, status)
      ensures State() == Reconstruct(old(State()), m, status)
    {
      if m.kind.SnapshotMessage? {
        if status == Duplicate || status == SequenceStatus.Stale {
          return false;
        }
        book.Clear();
        ApplyMessage(m);
        synchronized := true;
        return true;
      }
      if status == Gap {
        synchronized := false;
        return false;
      }
      if status != InOrder || !synchronized {
        return false;
      }
      ApplyMessage(m);
      return true;
    }

    method MarkDesynchronized()
      modifies this
      ensures State() == old(State()).(synchronized := false)
    {
      synchronized := false;
    }
  }

  /**
   A snapshot that is not a repeat is taken whole and synchronizes; an in-order update
   changes the prices it names, if synchronized; an update behind a gap desynchronizes.
   Nothing else changes anything.
   */
  lemma {:induction false} ReconstructionAfter(
      s: Reconstruction, m: BookMessage, status: SequenceStatus, side: BookSide, price: real)
    ensures var after := Reconstruct(s, m, status);
      var whole := m.kind.SnapshotMessage? && status != Duplicate && status != SequenceStatus.Stale;
      var next := m.kind.UpdateMessage? && status == InOrder && s.synchronized;
      && (Applies(s, m, status) <==> whole || next)
      && (whole ==> after.synchronized && At(after.book, side, price) == LastQuantity(None, m.updates, side, price))
      && (next ==>
            after.synchronized
            && At(after.book, side, price) == LastQuantity(At(s.book, side, price), m.updates, side, price))
      && (m.kind.UpdateMessage? && status == Gap ==> after == s.(synchronized := false))
      && (!whole && !next && !(m.kind.UpdateMessage? && status == Gap) ==> after == s)
  {
    BookHoldsLastQuantities(EMPTY_BOOK, m.updates, side, price);
    BookHoldsLastQuantities(s.book, m.updates, side, price);
  }

  // ---------- Unbroken runs of messages ----------

  /** One message that moved the tracker; it may carry no book message. */
  datatype Entry = Entry(number: SequenceNumber, message: Option<BookMessage>)

  predicate IsSnapshotOf(e: Entry, product: Product) {
    e.message.Some? && e.message.value.product == product && e.message.value.kind.SnapshotMessage?
  }

  /** The book the entries of one product leave behind, in order. */
  function Replay(product: Product, entries: seq<Entry>): Book {
    if entries == [] then EMPTY_BOOK
    else
      var e := entries[|entries| - 1];
      var before := Replay(product, entries[..|entries| - 1]);
      if e.message.Some? && e.message.value.product == product then Applied(before, e.message.value) else before
  }

  /** A snapshot of the product, then messages whose numbers follow each other without a hole. */
  predicate UnbrokenSinceSnapshot(product: Product, entries: seq<Entry>) {
    && entries != []
    && IsSnapshotOf(entries[0], product)
    && (forall i :: 0 < i < |entries| ==> !IsSnapshotOf(entries[i], product))
    && (forall i :: 0 <= i < |entries| ==> entries[i].number == entries[0].number + i)
  }

  lemma {:induction false} ReplaySnoc(product: Product, entries: seq<Entry>, e: Entry)
    ensures Replay(product, entries + [e])
      == if e.message.Some? && e.message.value.product == product
         then Applied(Replay(product, entries), e.message.value) else Replay(product, entries)
  {
    assert (entries + [e])[..|entries|] == entries;
  }

  lemma {:induction false} UnbrokenSnoc(product: Product, entries: seq<Entry>, e: Entry)
    requires UnbrokenSinceSnapshot(product, entries) && e.number == entries[|entries| - 1].number + 1
    requires !IsSnapshotOf(e, product)
    ensures UnbrokenSinceSnapshot(product, entries + [e])
  {}

  lemma {:induction false} FreshSnapshot(product: Product, e: Entry)
    requires IsSnapshotOf(e, product)
    ensures UnbrokenSinceSnapshot(product, [e]) && Replay(product, [e]) == Applied(EMPTY_BOOK, e.message.value)
  {
    ReplaySnoc(product, [], e);
    assert [] + [e] == [e];
  }
}
