/**
 One Coinbase connection carrying many products under one sequence. Wire texts come
 in as their contents; whatever makes the parser or the socket throw is `Failing`.
 */
module CoinbaseSessions {
  import opened Wrappers
  import opened OrderBooks
  import opened VenueEvents
  import opened SequenceTrackers
  import opened BookReconstructors

  datatype Frame =
    | PermanentRejection(product: Product)
    | Failing
    | Data(number: SequenceNumber, messages: seq<BookMessage>)

  datatype SessionState = SessionState(
    universe: Universe, last: Option<SequenceNumber>, books: map<Product, Reconstruction>, unsupported: set<Product>,
    pending: seq<VenueSessionEvent>, reconnect: bool)

  function Market(product: Product): MarketKey {
    MarketKey(Coinbase, product)
  }

  function Open(universe: Universe): SessionState {
    SessionState(
      universe, None, map p | p in universe :: UNSYNCHRONIZED, {},
      Statuses(Coinbase, universe, {}, Connecting) + Statuses(Coinbase, universe, {}, WaitingForSnapshot), false)
  }

  function TrustedEvent(m: BookMessage, book: Book): TrustedBookEvent {
    TrustedBookEvent(if m.kind.SnapshotMessage? then Snapshot else Update, Market(m.product), m.timestamp, Some(book))
  }

  predicate Known(s: SessionState) {
    forall p :: p in s.universe ==> p in s.books
  }

  /** One book message of a frame; an unexpected product throws. */
  function ProcessMessage(s: SessionState, m: BookMessage, status: SequenceStatus): Option<SessionState>
    requires Known(s)
  {
    if m.product !in s.universe || m.product in s.unsupported then None
    else
      var before := s.books[m.product];
      var after := Reconstruct(before, m, status);
      Some(s.(
        books := s.books[m.product := after],
        pending :=
          if Applies(before, m, status) then s.pending + [Trusted(TrustedEvent(m, after.book))] else s.pending))
  }

  function ProcessMessages(
      s: SessionState, messages: seq<BookMessage>, status: SequenceStatus): (r: Option<SessionState>)
    requires Known(s)
    ensures r.Some? ==> Known(r.value)
  {
    if messages == [] then Some(s)
    else
      match ProcessMessages(s, messages[..|messages| - 1], status)
      case None => None
      case Some(mid) => ProcessMessage(mid, messages[|messages| - 1], status)
  }

  function InvalidateOne(s: SessionState, p: Product): SessionState
    requires p in s.books
  {
    if p in s.unsupported then s
    else s.(
      books := s.books[p := s.books[p].(synchronized := false)],
      pending := s.pending + [Trusted(TrustedBookEvent(Invalidated, Market(p), 0, None))])
  }

  /** `invalidate_all`, product by product. */
  function Invalidate(s: SessionState, products: seq<Product>): (r: SessionState)
    requires Known(s) && forall p :: p in products ==> p in s.books
    ensures r.books.Keys == s.books.Keys && r.universe == s.universe
  {
    if products == [] then s
    else InvalidateOne(Invalidate(s, products[..|products| - 1]), products[|products| - 1])
  }

  /** One wire message; `None` is an exception, after which the session is abandoned. */
  function ProcessFrame(s: SessionState, f: Frame): (r: Option<SessionState>)
    requires Known(s)
    ensures r.Some? ==> Known(r.value)
  {
    match f
    case Failing => None
    case PermanentRejection(product) =>
      if product !in s.universe then None
      else Some(s.(
        unsupported := s.unsupported + {product},
        books := s.books[product := s.books[product].(synchronized := false)],
        pending := s.pending + [Status(Market(product), Unsupported)]))
    case Data(number, messages) =>
      var status := Classify(s.last, number).status;
      var observed := s.(last := Advance(s.last, number));
      if status == Gap then Some(Invalidate(observed, s.universe).(reconnect := true))
      else ProcessMessages(observed, messages, status)
  }

  datatype ReadResult = ReadResult(session: SessionState, wire: seq<Frame>, event: Option<VenueSessionEvent>)

  /** Pending events first; a session that must reconnect, or whose wire ends, fails. */
  function ReadEvent(s: SessionState, wire: seq<Frame>): (r: ReadResult)
    requires Known(s)
    ensures Known(r.session)
    decreases |wire|
  {
    if s.pending != [] then ReadResult(s.(pending := s.pending[1..]), wire, Some(s.pending[0]))
    else if s.reconnect || wire == [] then ReadResult(s, wire, None)
    else match ProcessFrame(s, wire[0])
      case None => ReadResult(s, wire[1..], None)
      case Some(next) => ReadEvent(next, wire[1..])
  }

  type Reconstructors = map<Product, BookReconstructor>

  /** No two products share a reconstructor or its book. */
  ghost predicate Apart(books: Reconstructors) {
    forall p, q :: p in books && q in books && p != q ==> books[p] != books[q] && books[p].book != books[q].book
  }

  /** The reconstructors and their books. */
  ghost function Repr(books: Reconstructors): set<object> {
    (set p | p in books :: books[p]) + (set p | p in books :: books[p].book)
  }

  method NewReconstructors(universe: Universe) returns (books: Reconstructors)
    ensures Apart(books) && books.Keys == set p | p in universe
    ensures forall p :: p in books ==>
      fresh(books[p]) && fresh(books[p].book) && books[p].State() == UNSYNCHRONIZED
  {
    books := map[];
    for i := 0 to |universe|
      invariant Apart(books) && books.Keys == set p | p in universe[..i]
      invariant forall p :: p in books ==>
        fresh(books[p]) && fresh(books[p].book) && books[p].State() == UNSYNCHRONIZED
    {
      if universe[i] !in books {
        var reconstructor := new BookReconstructor();
        books := books[universe[i] := reconstructor];
      }
    }
    assert universe[..|universe|] == universe;
  }

  class CoinbaseUniverseSession {
    const universe: Universe
    const sequence: SequenceTracker
    var books: Reconstructors
    var unsupported: set<Product>
    var pending: seq<VenueSessionEvent>
    var reconnectRequired: bool

    constructor (universe: Universe)
      ensures State() == Open(universe) && Valid() && fresh(sequence)
      ensures forall p :: p in books ==> fresh(books[p]) && fresh(books[p].book)
    {
      var reconstructors := NewReconstructors(universe);
      this.universe := universe;
      sequence := new SequenceTracker();
      books := reconstructors;
      unsupported := {};
      pending := Statuses(Coinbase, universe, {}, Connecting) + Statuses(Coinbase, universe, {}, WaitingForSnapshot);
      reconnectRequired := false;
      new;
      assert BookStates() == map p | p in universe :: UNSYNCHRONIZED;
    }

    function BookStates(): map<Product, Reconstruction>
      reads this`books, Repr(books)
    {
      map p | p in books :: books[p].State()
    }

    function State(): SessionState
      reads this, sequence, Repr(books)
    {
      SessionState(universe, sequence.last, BookStates(), unsupported, pending, reconnectRequired)
    }

    ghost predicate Valid()
      reads this`books
    {
      Apart(books) && forall p :: p in universe ==> p in books
    }

    method MarkBook(p: Product)
      requires Valid() && p in books
      modifies books[p]
      ensures BookStates() == old(BookStates())[p := old(BookStates())[p].(synchronized := false)]
    {
      books[p].MarkDesynchronized();
    }

    method ApplyToBook(m: BookMessage, status: SequenceStatus) returns (applied: bool)
      requires Valid() && m.product in books
      modifies books[m.product], books[m.product].book
      ensures applied == Applies(old(BookStates())[m.product], m, status)
      ensures BookStates() == old(BookStates())[m.product := Reconstruct(old(BookStates())[m.product], m, status)]
    {
      applied := books[m.product].Process(m, status);
    }

    method InvalidateProduct(p: Product)
      requires Valid() && p in books
      modifies this`pending, books[p]
      ensures State() == InvalidateOne(old(State()), p)
    {
      if p !in unsupported {
        MarkBook(p);
        pending := pending + [Trusted(TrustedBookEvent(Invalidated, Market(p), 0, None))];
      }
    }

    method InvalidateAll()
      requires Valid()
      modifies this`pending, Repr(books)
      ensures State() == Invalidate(old(State()), universe)
    {
      for i := 0 to |universe|
        invariant State() == Invalidate(old(State()), universe[..i])
      {
        assert universe[..i + 1][..i] == universe[..i];
        InvalidateProduct(universe[i]);
      }
      assert universe[..|universe|] == universe;
    }

    /** One book message; false for an unexpected product. */
    method ProcessBookMessage(m: BookMessage, status: SequenceStatus) returns (ok: bool)
      requires Valid()
      modifies this`pending, Repr(books)
      ensures ok == ProcessMessage(old(State()), m, status).Some?
      ensures ok ==> ProcessMessage(old(State()), m, status) == Some(State())
    {
      if m.product !in universe || m.product in unsupported {
        return false;
      }
      var applied := ApplyToBook(m, status);
      if applied {
        pending := pending + [Trusted(TrustedEvent(m, books[m.product].book.Contents()))];
      }
      return true;
    }

    method ProcessBookMessages(messages: seq<BookMessage>, status: SequenceStatus) returns (ok: bool)
      requires Valid()
      modifies this`pending, Repr(books)
      ensures ok == ProcessMessages(old(State()), messages, status).Some?
      ensures ok ==> ProcessMessages(old(State()), messages, status) == Some(State())
    {
      ghost var s := State();
      for i := 0 to |messages|
        invariant ProcessMessages(s, messages[..i], status) == Some(State())
      {
        NextMessage(s, messages, status, i);
        ok := ProcessBookMessage(messages[i], status);
        if !ok {
          MessagesFail(s, messages, status, i + 1);
          return;
        }
      }
      assert messages[..|messages|] == messages;
      return true;
    }

    /** A permanent rejection; false for a product that was never configured. */
    method RejectProduct(p: Product) returns (ok: bool)
      requires Valid()
      modifies this`unsupported, this`pending, Repr(books)
      ensures ok == ProcessFrame(old(State()), PermanentRejection(p)).Some?
      ensures ok ==> ProcessFrame(old(State()), PermanentRejection(p)) == Some(State())
    {
      if p !in universe {
        return false;
      }
      MarkBook(p);
      unsupported := unsupported + {p};
      pending := pending + [Status(Market(p), Unsupported)];
      return true;
    }

    method ObserveFrame(number: SequenceNumber) returns (status: SequenceStatus)
      requires Valid()
      modifies sequence
      ensures status == Classify(old(State()).last, number).status
      ensures State() == old(State()).(last := Advance(old(State()).last, number))
    {
      var observed := sequence.Observe(number);
      status := observed.status;
    }

    method ForceReconnect()
      requires Valid()
      modifies this`pending, this`reconnectRequired, Repr(books)
      ensures State() == Invalidate(old(State()), universe).(reconnect := true)
    {
      InvalidateAll();
      reconnectRequired := true;
    }

    method ProcessFrameContents(f: Frame) returns (ok: bool)
      requires Valid()
      modifies this`unsupported, this`pending, this`reconnectRequired, sequence, Repr(books)
      ensures ok == ProcessFrame(old(State()), f).Some?
      ensures ok ==> ProcessFrame(old(State()), f) == Some(State())
    {
      match f {
        case Failing =>
          ok := false;
        case PermanentRejection(product) =>
          ok := RejectProduct(product);
        case Data(number, messages) =>
          var status := ObserveFrame(number);
          if status == Gap {
            ForceReconnect();
            ok := true;
          } else {
            ok := ProcessBookMessages(messages, status);
          }
      }
    }

    /** The reading loop over what the wire still delivers. */
    method Read(wire: seq<Frame>) returns (event: Option<VenueSessionEvent>, rest: seq<Frame>)
      requires Valid()
      modifies this, sequence, Repr(books)
      ensures Valid() && books == old(books)
      ensures event == ReadEvent(old(State()), wire).event && rest == ReadEvent(old(State()), wire).wire
      ensures event.Some? ==> State() == ReadEvent(old(State()), wire).session
    {
      rest := wire;
      while pending == []
        invariant Valid() && books == old(books)
        invariant ReadEvent(State(), rest) == ReadEvent(old(State()), wire)
        decreases |rest|
      {
        if reconnectRequired || rest == [] {
          return None, rest;
        }
        var f := rest[0];
        rest := rest[1..];
        var ok := ProcessFrameContents(f);
        if !ok {
          return None, rest;
        }
      }
      event := Some(pending[0]);
      pending := pending[1..];
    }
  }

  lemma {:induction false} InvalidateKeeps(s: SessionState, products: seq<Product>)
    requires Known(s) && forall p :: p in products ==> p in s.books
    ensures Known(Invalidate(s, products)) && Invalidate(s, products).unsupported == s.unsupported
    ensures Invalidate(s, products).last == s.last && Invalidate(s, products).reconnect == s.reconnect
  {
    if products != [] {
      InvalidateKeeps(s, products[..|products| - 1]);
    }
  }

  lemma {:induction false} NextMessage(s: SessionState, messages: seq<BookMessage>, status: SequenceStatus, i: nat)
    requires Known(s) && i < |messages|
    ensures ProcessMessages(s, messages[..i + 1], status) == match ProcessMessages(s, messages[..i], status)
      case None => None
      case Some(mid) => ProcessMessage(mid, messages[i], status)
  {
    assert messages[..i + 1][..i] == messages[..i];
  }

  lemma {:induction false} MessagesFail(s: SessionState, messages: seq<BookMessage>, status: SequenceStatus, n: nat)
    requires Known(s) && n <= |messages| && ProcessMessages(s, messages[..n], status) == None
    ensures ProcessMessages(s, messages, status) == None
    decreases |messages|
  {
    if n < |messages| {
      assert messages[..|messages| - 1][..n] == messages[..n];
      MessagesFail(s, messages[..|messages| - 1], status, n);
    } else {
      assert messages[..n] == messages;
    }
  }

  // ---------- The whole session ----------

  /** The session after a list of frames, with nothing taken from its queue. */
  function Consumed(universe: Universe, frames: seq<Frame>): (r: Option<SessionState>)
    ensures r.Some? ==> Known(r.value)
  {
    if frames == [] then Some(Open(universe))
    else
      match Consumed(universe, frames[..|frames| - 1])
      case None => None
      case Some(s) => if s.reconnect then None else ProcessFrame(s, frames[|frames| - 1])
  }

  /** The tracker's position after the data frames. */
  function Position(frames: seq<Frame>): Option<SequenceNumber> {
    if frames == [] then None
    else
      var before, f := Position(frames[..|frames| - 1]), frames[|frames| - 1];
      if f.Data? then Advance(before, f.number) else before
  }

  // ---------- The reference: one product's stream ----------

  /** The product's messages of one frame that count: snapshots always, updates only once there is a snapshot. */
  function Taken(
      messages: seq<BookMessage>, product: Product, first: bool, stream: seq<BookMessage>): seq<BookMessage> {
    if messages == [] then stream
    else
      var before, m := Taken(messages[..|messages| - 1], product, first, stream), messages[|messages| - 1];
      if m.product == product && (m.kind.SnapshotMessage? || (!first && before != [])) then before + [m] else before
  }

  /** Over the accepted frames, in order; no update of the very first frame counts. */
  function Stream(frames: seq<Frame>, product: Product): seq<BookMessage> {
    if frames == [] then []
    else
      var before, f := Stream(frames[..|frames| - 1], product), frames[|frames| - 1];
      if !f.Data? then before
      else
        var status := Classify(Position(frames[..|frames| - 1]), f.number).status;
        if Advances(status) then Taken(f.messages, product, status == First, before) else before
  }

  function BookOf(stream: seq<BookMessage>): Book {
    if stream == [] then EMPTY_BOOK else Applied(BookOf(stream[..|stream| - 1]), stream[|stream| - 1])
  }

  /** One event for each counted message, carrying the replay up to it. */
  function EventsFor(stream: seq<BookMessage>): seq<TrustedBookEvent> {
    if stream == [] then []
    else EventsFor(stream[..|stream| - 1]) + [TrustedEvent(stream[|stream| - 1], BookOf(stream))]
  }

  /** A product's trusted events among a session's events. */
  function TrustedOf(log: seq<VenueSessionEvent>, product: Product): seq<TrustedBookEvent> {
    if log == [] then []
    else
      var before, e := TrustedOf(log[..|log| - 1], product), log[|log| - 1];
      if e.Trusted? && e.event.market == Market(product) then before + [e.event] else before
  }

  lemma {:induction false} TrustedSnoc(log: seq<VenueSessionEvent>, e: VenueSessionEvent, product: Product)
    ensures TrustedOf(log + [e], product)
      == if e.Trusted? && e.event.market == Market(product) then TrustedOf(log, product) + [e.event]
         else TrustedOf(log, product)
  {
    assert (log + [e])[..|log|] == log;
  }

  lemma {:induction false} StreamSnoc(stream: seq<BookMessage>, m: BookMessage)
    ensures BookOf(stream + [m]) == Applied(BookOf(stream), m)
    ensures EventsFor(stream + [m]) == EventsFor(stream) + [TrustedEvent(m, BookOf(stream + [m]))]
  {
    assert (stream + [m])[..|stream|] == stream;
  }

  /** What a session holds and has said about one product, against its stream. */
  predicate Mirrors(s: SessionState, stream: seq<BookMessage>, product: Product)
    requires product in s.books
  {
    && (product in s.unsupported || (s.books[product].synchronized <==> stream != []))
    && (s.books[product].synchronized ==> s.books[product].book == BookOf(stream))
    && TrustedOf(s.pending, product) == EventsFor(stream)
  }

  predicate Counts(m: BookMessage, status: SequenceStatus, stream: seq<BookMessage>) {
    m.kind.SnapshotMessage? || (status != First && stream != [])
  }

  lemma {:induction false} ReconstructsStream(
      before: Reconstruction, stream: seq<BookMessage>, m: BookMessage, status: SequenceStatus)
    requires Advances(status) && (before.synchronized <==> stream != [])
    requires before.synchronized ==> before.book == BookOf(stream)
    ensures Applies(before, m, status) == Counts(m, status, stream)
    ensures Reconstruct(before, m, status)
      == if Counts(m, status, stream) then Reconstruction(BookOf(stream + [m]), true) else before
  {
    StreamSnoc(stream, m);
  }

  lemma {:induction false} OwnMessageMirrors(
      s: SessionState, stream: seq<BookMessage>, m: BookMessage, status: SequenceStatus)
    requires Known(s) && m.product in s.universe && Mirrors(s, stream, m.product)
    requires Advances(status) && m.product !in s.unsupported
    ensures var next := ProcessMessage(s, m, status);
      && next.Some? && m.product in next.value.books
      && Mirrors(next.value, if Counts(m, status, stream) then stream + [m] else stream, m.product)
  {
    ReconstructsStream(s.books[m.product], stream, m, status);
    if Counts(m, status, stream) {
      StreamSnoc(stream, m);
      TrustedSnoc(s.pending, Trusted(TrustedEvent(m, BookOf(stream + [m]))), m.product);
    }
  }

  lemma {:induction false} OtherMessageMirrors(
      s: SessionState, stream: seq<BookMessage>, product: Product, m: BookMessage, status: SequenceStatus)
    requires Known(s) && product in s.universe && Mirrors(s, stream, product)
    requires m.product != product && ProcessMessage(s, m, status).Some?
    ensures var next := ProcessMessage(s, m, status).value;
      product in next.books && Mirrors(next, stream, product)
  {
    var after := Reconstruct(s.books[m.product], m, status);
    TrustedSnoc(s.pending, Trusted(TrustedEvent(m, after.book)), product);
  }

  lemma {:induction false} MessagesMirror(
      s: SessionState, stream: seq<BookMessage>, product: Product, ms: seq<BookMessage>, status: SequenceStatus)
    requires Known(s) && product in s.universe && Mirrors(s, stream, product)
    requires Advances(status) && ProcessMessages(s, ms, status).Some?
    ensures var next := ProcessMessages(s, ms, status).value;
      && next.universe == s.universe && next.unsupported == s.unsupported && next.last == s.last
      && next.reconnect == s.reconnect && Mirrors(next, Taken(ms, product, status == First, stream), product)
  {
    if ms != [] {
      var front := ms[..|ms| - 1];
      MessagesMirror(s, stream, product, front, status);
      var mid := ProcessMessages(s, front, status).value;
      var taken, m := Taken(front, product, status == First, stream), ms[|ms| - 1];
      if m.product == product {
        OwnMessageMirrors(mid, taken, m, status);
      } else {
        OtherMessageMirrors(mid, taken, product, m, status);
      }
    }
  }

  /** Repeated and late frames are only checked for unexpected products. */
  lemma {:induction false} RepeatedMessagesIgnored(s: SessionState, ms: seq<BookMessage>, status: SequenceStatus)
    requires Known(s) && (status == Duplicate || status == SequenceStatus.Stale) && ProcessMessages(s, ms, status).Some?
    ensures var next := ProcessMessages(s, ms, status).value;
      next == s.(books := next.books) && next.books == s.books
  {
    if ms != [] {
      var front, m := ms[..|ms| - 1], ms[|ms| - 1];
      RepeatedMessagesIgnored(s, front, status);
      assert s.books[m.product := s.books[m.product]] == s.books;
    }
  }

  lemma {:induction false} StatusesAreNotTrusted(
      log: seq<VenueSessionEvent>, products: seq<Product>, status: VenueMarketStatus, product: Product)
    ensures TrustedOf(log + Statuses(Coinbase, products, {}, status), product) == TrustedOf(log, product)
  {
    if products == [] {
      assert log + [] == log;
    } else {
      var front, p := products[..|products| - 1], products[|products| - 1];
      var e := Status(MarketKey(Coinbase, p), status);
      StatusesAreNotTrusted(log, front, status, product);
      assert log + Statuses(Coinbase, products, {}, status) == log + Statuses(Coinbase, front, {}, status) + [e];
      TrustedSnoc(log + Statuses(Coinbase, front, {}, status), e, product);
    }
  }

  function InvalidatedEvent(product: Product): TrustedBookEvent {
    TrustedBookEvent(Invalidated, Market(product), 0, None)
  }

  lemma {:induction false} InvalidateSays(s: SessionState, products: seq<Product>, product: Product)
    requires Known(s) && (forall p :: p in products ==> p in s.books) && Distinct(products)
    ensures TrustedOf(Invalidate(s, products).pending, product)
      == if product in products && product !in s.unsupported
         then TrustedOf(s.pending, product) + [InvalidatedEvent(product)] else TrustedOf(s.pending, product)
  {
    if products != [] {
      var front, p := products[..|products| - 1], products[|products| - 1];
      InvalidateSays(s, front, product);
      InvalidateKeeps(s, front);
      assert products == front + [p];
      TrustedSnoc(Invalidate(s, front).pending, Trusted(InvalidatedEvent(p)), product);
    }
  }

  /** The session's events about one product: its stream's, and one invalidation at the end if a gap was seen. */
  predicate Says(s: SessionState, frames: seq<Frame>, product: Product)
    requires product in s.books
  {
    if s.reconnect then
      TrustedOf(s.pending, product)
        == EventsFor(Stream(frames, product)) + if product in s.unsupported then [] else [InvalidatedEvent(product)]
    else Mirrors(s, Stream(frames, product), product)
  }

  lemma {:induction false} OpenSays(universe: Universe, product: Product)
    requires product in universe
    ensures Says(Open(universe), [], product)
  {
    StatusesAreNotTrusted([], universe, Connecting, product);
    assert [] + Statuses(Coinbase, universe, {}, Connecting) == Statuses(Coinbase, universe, {}, Connecting);
    StatusesAreNotTrusted(Statuses(Coinbase, universe, {}, Connecting), universe, WaitingForSnapshot, product);
  }

  lemma {:induction false} FrameSays(s: SessionState, frames: seq<Frame>, f: Frame, product: Product)
    requires Known(s) && Distinct(s.universe) && product in s.universe && !s.reconnect && s.last == Position(frames)
    requires Says(s, frames, product) && ProcessFrame(s, f).Some?
    ensures var next := ProcessFrame(s, f).value;
      next.universe == s.universe && next.last == Position(frames + [f]) && Says(next, frames + [f], product)
  {
    assert (frames + [f])[..|frames|] == frames;
    if f.PermanentRejection? {
      TrustedSnoc(s.pending, Status(Market(f.product), Unsupported), product);
    } else if f.Data? {
      var status := Classify(s.last, f.number).status;
      var observed := s.(last := Advance(s.last, f.number));
      if status == Gap {
        InvalidateSays(observed, s.universe, product);
        InvalidateKeeps(observed, s.universe);
      } else if Advances(status) {
        MessagesMirror(observed, Stream(frames, product), product, f.messages, status);
      } else {
        RepeatedMessagesIgnored(observed, f.messages, status);
      }
    }
  }

  /**
   For every product of a session that has not failed, its trusted events are exactly
   the replays of its stream, taken from frames whose numbers have no hole; a gap on
   any channel ends the session with one invalidation of every product not rejected.
   */
  lemma {:induction false} SessionSaysItsStream(universe: Universe, frames: seq<Frame>, product: Product)
    requires Distinct(universe) && product in universe && Consumed(universe, frames).Some?
    ensures var s := Consumed(universe, frames).value;
      s.universe == universe && s.last == Position(frames) && Says(s, frames, product)
  {
    if frames == [] {
      OpenSays(universe, product);
    } else {
      var front, f := frames[..|frames| - 1], frames[|frames| - 1];
      SessionSaysItsStream(universe, front, product);
      FrameSays(Consumed(universe, front).value, front, f, product);
      assert frames == front + [f];
    }
  }

  lemma {:induction false} TakenKeepsShape(
      ms: seq<BookMessage>, product: Product, first: bool, stream: seq<BookMessage>)
    requires stream != [] ==> stream[0].kind.SnapshotMessage?
    requires forall i :: 0 <= i < |stream| ==> stream[i].product == product
    ensures var taken := Taken(ms, product, first, stream);
      && stream <= taken && (taken != [] ==> taken[0].kind.SnapshotMessage?)
      && (forall i :: 0 <= i < |taken| ==> taken[i].product == product)
      && (first ==> forall i :: |stream| <= i < |taken| ==> taken[i].kind.SnapshotMessage?)
  {
    if ms != [] {
      TakenKeepsShape(ms[..|ms| - 1], product, first, stream);
    }
  }

  /** Every stream starts with a snapshot of its product, so every update event follows a snapshot event. */
  lemma {:induction false} StreamStartsWithSnapshot(frames: seq<Frame>, product: Product)
    ensures var stream := Stream(frames, product);
      && (stream != [] ==> stream[0].kind.SnapshotMessage?)
      && (forall i :: 0 <= i < |stream| ==> stream[i].product == product)
  {
    if frames != [] {
      var front, f := frames[..|frames| - 1], frames[|frames| - 1];
      StreamStartsWithSnapshot(front, product);
      if f.Data? {
        TakenKeepsShape(f.messages, product, Classify(Position(front), f.number).status
          == First, Stream(front, product));
      }
    }
  }

  function DataNumbers(frames: seq<Frame>): seq<SequenceNumber> {
    if frames == [] then []
    else
      var before, f := DataNumbers(frames[..|frames| - 1]), frames[|frames| - 1];
      if f.Data? then before + [f.number] else before
  }

  /** The accepted frames, from which alone streams are taken, have consecutive numbers. */
  lemma {:induction false} AcceptedFramesAreConsecutive(frames: seq<Frame>)
    ensures var accepted := AcceptedNumbers(DataNumbers(frames));
      && Position(frames) == SequenceTrackers.Position(DataNumbers(frames))
      && (forall i :: 0 <= i < |accepted| ==> accepted[i] == accepted[0] + i)
      && (accepted != [] ==> Position(frames) == Some(accepted[|accepted| - 1]))
  {
    PositionOfNumbers(frames);
    AcceptedNumbersAreConsecutive(DataNumbers(frames));
  }

  lemma {:induction false} PositionOfNumbers(frames: seq<Frame>)
    ensures Position(frames) == SequenceTrackers.Position(DataNumbers(frames))
  {
    if frames != [] {
      var front, f := frames[..|frames| - 1], frames[|frames| - 1];
      PositionOfNumbers(front);
      if f.Data? {
        assert (DataNumbers(front) + [f.number])[..|DataNumbers(front)|] == DataNumbers(front);
      }
    }
  }

  lemma {:induction false} FirstPair(s: SessionState, snapshot: BookMessage, update: BookMessage)
    requires Known(s) && snapshot.product == update.product && update.product in s.universe
    requires s.unsupported == {} && snapshot.kind.SnapshotMessage? && update.kind.UpdateMessage?
    ensures var r := ProcessMessages(s, [snapshot, update], First);
      && r.Some? && update.product in r.value.books
      && r.value.books[update.product] == Reconstruction(Applied(EMPTY_BOOK, snapshot), true)
  {
    var one := ProcessMessage(s, snapshot, First).value;
    assert [snapshot, update][..1] == [snapshot] && [snapshot][..0] == [];
    assert ProcessMessages(s, [snapshot], First) == Some(one);
  }

  lemma {:induction false} FirstPairTaken(snapshot: BookMessage, update: BookMessage)
    requires snapshot.product == update.product && snapshot.kind.SnapshotMessage? && update.kind.UpdateMessage?
    ensures Taken([snapshot, update], update.product, true, []) == [snapshot]
  {
    assert [snapshot, update][..1] == [snapshot] && [snapshot][..0] == [];
    assert Taken([snapshot], update.product, true, []) == [snapshot];
  }

  /**
   An update in the session's first frame is dropped even when the same frame brings
   the product's snapshot before it: only the snapshots of that frame count.
   */
  lemma {:induction false} FirstFrameUpdatesAreDropped(
      universe: Universe, number: SequenceNumber, snapshot: BookMessage, update: BookMessage)
    requires snapshot.product == update.product && update.product in universe
    requires snapshot.kind.SnapshotMessage? && update.kind.UpdateMessage?
    ensures var frames := [Data(number, [snapshot, update])];
      && Stream(frames, update.product) == [snapshot]
      && Consumed(universe, frames).Some?
      && update.product in Consumed(universe, frames).value.books
      && Consumed(universe, frames).value.books[update.product] == Reconstruction(Applied(EMPTY_BOOK, snapshot), true)
  {
    FirstPairTaken(snapshot, update);
    FirstPair(Open(universe).(last := Some(number)), snapshot, update);
    assert [Data(number, [snapshot, update])][..0] == [];
  }

  // ---------- What a reader of the session gets ----------

  lemma {:induction false} ReadShrinks(s: SessionState, wire: seq<Frame>)
    requires Known(s)
    ensures var r := ReadEvent(s, wire);
      r.event.Some? ==> |r.wire| < |wire| || (|r.wire| == |wire| && |r.session.pending| < |s.pending|)
    decreases |wire|
  {
    if s.pending == [] && !s.reconnect && wire != [] && ProcessFrame(s, wire[0]).Some? {
      ReadShrinks(ProcessFrame(s, wire[0]).value, wire[1..]);
    }
  }

  /** Every event read until the session fails. */
  function Emissions(s: SessionState, wire: seq<Frame>): seq<VenueSessionEvent>
    requires Known(s)
    decreases |wire|, |s.pending|
  {
    ReadShrinks(s, wire);
    var r := ReadEvent(s, wire);
    if r.event.None? then [] else [r.event.value] + Emissions(r.session, r.wire)
  }

  function Behind(emitted: seq<VenueSessionEvent>, s: SessionState): SessionState {
    s.(pending := emitted + s.pending)
  }

  lemma {:induction false} MessagesBehind(
      emitted: seq<VenueSessionEvent>, s: SessionState, ms: seq<BookMessage>, status: SequenceStatus)
    requires Known(s)
    ensures var here, there := ProcessMessages(s, ms, status), ProcessMessages(Behind(emitted, s), ms, status);
      (here.Some? <==> there.Some?) && (here.Some? ==> there.value == Behind(emitted, here.value))
  {
    if ms != [] {
      var front, m := ms[..|ms| - 1], ms[|ms| - 1];
      MessagesBehind(emitted, s, front, status);
      var here := ProcessMessages(s, front, status);
      if here.Some? && m.product in here.value.books {
        var e := Trusted(TrustedEvent(m, Reconstruct(here.value.books[m.product], m, status).book));
        assert emitted + (here.value.pending + [e]) == emitted + here.value.pending + [e];
      }
    }
  }

  lemma {:induction false} InvalidateBehind(emitted: seq<VenueSessionEvent>, s: SessionState, products: seq<Product>)
    requires Known(s) && forall p :: p in products ==> p in s.books
    ensures Invalidate(Behind(emitted, s), products) == Behind(emitted, Invalidate(s, products))
  {
    if products != [] {
      var front, p := products[..|products| - 1], products[|products| - 1];
      InvalidateBehind(emitted, s, front);
      var e := Trusted(TrustedBookEvent(Invalidated, Market(p), 0, None));
      assert emitted + (Invalidate(s, front).pending + [e]) == emitted + Invalidate(s, front).pending + [e];
    }
  }

  /** Taking events from the queue does not change what later frames do. */
  lemma {:induction false} FrameBehind(emitted: seq<VenueSessionEvent>, s: SessionState, f: Frame)
    requires Known(s)
    ensures var here, there := ProcessFrame(s, f), ProcessFrame(Behind(emitted, s), f);
      (here.Some? <==> there.Some?) && (here.Some? ==> there.value == Behind(emitted, here.value))
  {
    if f.PermanentRejection? {
      var e := Status(Market(f.product), Unsupported);
      assert emitted + (s.pending + [e]) == emitted + s.pending + [e];
    } else if f.Data? {
      var observed := s.(last := Advance(s.last, f.number));
      MessagesBehind(emitted, observed, f.messages, Classify(s.last, f.number).status);
      InvalidateBehind(emitted, observed, s.universe);
    }
  }

  /** How many frames a session takes before it fails or the wire ends. */
  function Survived(s: SessionState, wire: seq<Frame>): (n: nat)
    requires Known(s)
    ensures n <= |wire|
    decreases |wire|
  {
    if s.reconnect || wire == [] || ProcessFrame(s, wire[0]).None? then 0
    else 1 + Survived(ProcessFrame(s, wire[0]).value, wire[1..])
  }

  /** Frames taken from a state, with nothing taken from the queue. */
  function AfterFrames(s: SessionState, wire: seq<Frame>): (r: SessionState)
    requires Known(s)
    ensures Known(r)
    decreases |wire|
  {
    if s.reconnect || wire == [] || ProcessFrame(s, wire[0]).None? then s
    else AfterFrames(ProcessFrame(s, wire[0]).value, wire[1..])
  }

  lemma {:induction false} AfterBehind(emitted: seq<VenueSessionEvent>, s: SessionState, wire: seq<Frame>)
    requires Known(s)
    ensures AfterFrames(Behind(emitted, s), wire) == Behind(emitted, AfterFrames(s, wire))
    decreases |wire|
  {
    if !s.reconnect && wire != [] {
      FrameBehind(emitted, s, wire[0]);
      if ProcessFrame(s, wire[0]).Some? {
        AfterBehind(emitted, ProcessFrame(s, wire[0]).value, wire[1..]);
      }
    }
  }

  lemma {:induction false} PopBehind(s: SessionState)
    requires s.pending != []
    ensures Behind([s.pending[0]], s.(pending := s.pending[1..])) == s
  {
    assert [s.pending[0]] + s.pending[1..] == s.pending;
  }

  lemma {:induction false} EmissionsFromState(s: SessionState, wire: seq<Frame>)
    requires Known(s)
    ensures Emissions(s, wire) == AfterFrames(s, wire).pending
    decreases |wire|, |s.pending|
  {
    ReadShrinks(s, wire);
    if s.pending != [] {
      var e, next := s.pending[0], s.(pending := s.pending[1..]);
      EmissionsFromState(next, wire);
      AfterBehind([e], next, wire);
      PopBehind(s);
    } else if !s.reconnect && wire != [] && ProcessFrame(s, wire[0]).Some? {
      var next := ProcessFrame(s, wire[0]).value;
      EmissionsFromState(next, wire[1..]);
      ReadShrinks(next, wire[1..]);
      assert ReadEvent(s, wire) == ReadEvent(next, wire[1..]);
    }
  }

  lemma {:induction false} ConsumedFrom(universe: Universe, done: seq<Frame>, wire: seq<Frame>)
    requires Consumed(universe, done).Some?
    ensures var s := Consumed(universe, done).value;
      Consumed(universe, done + wire[..Survived(s, wire)]) == Some(AfterFrames(s, wire))
    decreases |wire|
  {
    var s := Consumed(universe, done).value;
    if s.reconnect || wire == [] || ProcessFrame(s, wire[0]).None? {
      assert done + [] == done && wire[..0] == [];
    } else {
      ConsumedSnoc(universe, done, wire[0]);
      ConsumedFrom(universe, done + [wire[0]], wire[1..]);
      PrefixCons(done, wire, Survived(ProcessFrame(s, wire[0]).value, wire[1..]));
    }
  }

  lemma {:induction false} ConsumedSnoc(universe: Universe, done: seq<Frame>, f: Frame)
    requires Consumed(universe, done).Some?
    ensures var s := Consumed(universe, done).value;
      Consumed(universe, done + [f]) == if s.reconnect then None else ProcessFrame(s, f)
  {
    assert (done + [f])[..|done|] == done;
  }

  lemma {:induction false} PrefixCons<T>(done: seq<T>, wire: seq<T>, n: nat)
    requires n < |wire|
    ensures done + wire[..n + 1] == done + [wire[0]] + wire[1..][..n]
  {}

  /**
   What reaches a reader before the session fails is exactly the log of the frames that
   did not throw: events of a frame that throws half way are lost with the session.
   */
  lemma {:induction false} EmissionsAreTheLog(universe: Universe, wire: seq<Frame>)
    ensures var taken := wire[..Survived(Open(universe), wire)];
      Consumed(universe, taken).Some? && Emissions(Open(universe), wire) == Consumed(universe, taken).value.pending
  {
    EmissionsFromState(Open(universe), wire);
    ConsumedFrom(universe, [], wire);
    assert [] + wire[..Survived(Open(universe), wire)] == wire[..Survived(Open(universe), wire)];
  }

  /** So every product's trusted events, as read, are its stream's, closed by one invalidation after a gap. */
  lemma {:induction false} ReadersSeeTheStream(universe: Universe, wire: seq<Frame>, product: Product)
    requires Distinct(universe) && product in universe
    ensures var taken := wire[..Survived(Open(universe), wire)];
      && Consumed(universe, taken).Some?
      && var s := Consumed(universe, taken).value;
         TrustedOf(Emissions(Open(universe), wire), product)
           == EventsFor(Stream(taken, product))
              + if s.reconnect && product !in s.unsupported then [InvalidatedEvent(product)] else []
  {
    var taken := wire[..Survived(Open(universe), wire)];
    EmissionsAreTheLog(universe, wire);
    SessionSaysItsStream(universe, taken, product);
    assert EventsFor(Stream(taken, product)) + [] == EventsFor(Stream(taken, product));
  }

  // ---------- When the first frame's updates are missed ----------

  /** What a consumer is promised: an update counts as soon as a snapshot of its product came before it. */
  function FullStream(frames: seq<Frame>, product: Product): seq<BookMessage> {
    if frames == [] then []
    else
      var before, f := FullStream(frames[..|frames| - 1], product), frames[|frames| - 1];
      if f.Data? && Advances(Classify(Position(frames[..|frames| - 1]), f.number).status) then
        Taken(f.messages, product, false, before)
      else before
  }

  /** The messages of the session's first data frame. */
  function FirstMessages(frames: seq<Frame>): seq<BookMessage> {
    if frames == [] then []
    else if Position(frames[..|frames| - 1]).Some? then FirstMessages(frames[..|frames| - 1])
    else
      var f := frames[|frames| - 1];
      if f.Data? then f.messages else []
  }

  predicate SnapshotAt(ms: seq<BookMessage>, product: Product, i: nat)
    requires i < |ms|
  {
    ms[i].product == product && ms[i].kind.SnapshotMessage?
  }

  predicate UpdateAt(ms: seq<BookMessage>, product: Product, i: nat)
    requires i < |ms|
  {
    ms[i].product == product && ms[i].kind.UpdateMessage?
  }

  /** Some update of the product comes after a snapshot of it. */
  predicate UpdateFollowsSnapshot(ms: seq<BookMessage>, product: Product) {
    exists i, j :: 0 <= i < j < |ms| && SnapshotAt(ms, product, i) && UpdateAt(ms, product, j)
  }

  predicate HasSnapshot(ms: seq<BookMessage>, product: Product) {
    exists i :: 0 <= i < |ms| && SnapshotAt(ms, product, i)
  }

  lemma {:induction false} FollowsSnoc(front: seq<BookMessage>, m: BookMessage, product: Product)
    ensures HasSnapshot(front + [m], product) <==>
      (HasSnapshot(front, product) || (m.product == product && m.kind.SnapshotMessage?))
    ensures UpdateFollowsSnapshot(front + [m], product) <==>
      (UpdateFollowsSnapshot(front, product)
       || (HasSnapshot(front, product) && m.product == product && m.kind.UpdateMessage?))
  {
    var ms, n := front + [m], |front|;
    forall i | 0 <= i < n
      ensures SnapshotAt(ms, product, i) == SnapshotAt(front, product, i)
      ensures UpdateAt(ms, product, i) == UpdateAt(front, product, i)
    {}
    assert SnapshotAt(ms, product, n) == (m.product == product && m.kind.SnapshotMessage?);
    assert UpdateAt(ms, product, n) == (m.product == product && m.kind.UpdateMessage?);
  }

  /** Reading a frame as the first one loses messages exactly when an update follows a snapshot in it. */
  lemma {:induction false} FirstTakesAllIff(ms: seq<BookMessage>, product: Product)
    ensures var first, full := Taken(ms, product, true, []), Taken(ms, product, false, []);
      && (first == [] <==> !HasSnapshot(ms, product)) && (full == [] <==> !HasSnapshot(ms, product))
      && (if UpdateFollowsSnapshot(ms, product) then |first| < |full| else first == full)
  {
    if ms != [] {
      var front, m := ms[..|ms| - 1], ms[|ms| - 1];
      FirstTakesAllIff(front, product);
      FollowsSnoc(front, m, product);
      assert ms == front + [m];
    }
  }

  /** Later frames add as much to one stream as to another, if both have started or neither has. */
  lemma {:induction false} TakenAddsAlike(
      ms: seq<BookMessage>, product: Product, a: seq<BookMessage>, b: seq<BookMessage>)
    requires a == [] <==> b == []
    ensures var more, full := Taken(ms, product, false, a), Taken(ms, product, false, b);
      (more == [] <==> full == []) && |more| - |a| == |full| - |b|
  {
    if ms != [] {
      TakenAddsAlike(ms[..|ms| - 1], product, a, b);
    }
  }

  lemma {:induction false} NothingBeforeTheFirstFrame(frames: seq<Frame>, product: Product)
    requires Position(frames).None?
    ensures Stream(frames, product) == [] && FullStream(frames, product) == [] && FirstMessages(frames) == []
  {
    if frames != [] {
      NothingBeforeTheFirstFrame(frames[..|frames| - 1], product);
    }
  }

  /** The session's stream is the promised one exactly when its first data frame has no update after a snapshot. */
  lemma {:induction false} StreamIsFullIff(frames: seq<Frame>, product: Product)
    ensures var said, full := Stream(frames, product), FullStream(frames, product);
      && (said == [] <==> full == [])
      && (if UpdateFollowsSnapshot(FirstMessages(frames), product) then |said| < |full| else said == full)
  {
    if frames != [] {
      var front, f := frames[..|frames| - 1], frames[|frames| - 1];
      StreamIsFullIff(front, product);
      if Position(front).None? {
        NothingBeforeTheFirstFrame(front, product);
        if f.Data? {
          FirstTakesAllIff(f.messages, product);
        }
      } else if f.Data? {
        TakenAddsAlike(f.messages, product, Stream(front, product), FullStream(front, product));
      }
    }
  }

  lemma {:induction false} OneEventEach(stream: seq<BookMessage>)
    ensures |EventsFor(stream)| == |stream|
  {
    if stream != [] {
      OneEventEach(stream[..|stream| - 1]);
    }
  }

  /**
   What a reader gets for a product is the replay of everything it is promised, closed
   by the invalidation of a gap, if and only if the first data frame has no update of
   the product after a snapshot of it; otherwise at least one event is missing.
   */
  lemma {:induction false} ReadersMissFirstFrameUpdatesIff(universe: Universe, wire: seq<Frame>, product: Product)
    requires Distinct(universe) && product in universe
    ensures var taken := wire[..Survived(Open(universe), wire)];
      && Consumed(universe, taken).Some?
      && var s := Consumed(universe, taken).value;
         var closing := if s.reconnect && product !in s.unsupported then [InvalidatedEvent(product)] else [];
         (TrustedOf(Emissions(Open(universe), wire), product) == EventsFor(FullStream(taken, product)) + closing)
         <==> !UpdateFollowsSnapshot(FirstMessages(taken), product)
  {
    var taken := wire[..Survived(Open(universe), wire)];
    ReadersSeeTheStream(universe, wire, product);
    StreamIsFullIff(taken, product);
    OneEventEach(Stream(taken, product));
    OneEventEach(FullStream(taken, product));
  }
}
