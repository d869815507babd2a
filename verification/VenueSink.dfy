/**
 What reaches the sink: everything a session emits, complete and in order, then the
 recovery statuses. So the store ends up with the whole stream and not just a part of it.
 */
module VenueSinks {
  import opened Wrappers
  import opened VenueEvents
  import opened SequenceTrackers
  import opened BookReconstructors
  import opened CoinbaseSessions
  import opened KrakenSessions
  import opened VenueRunners
  import opened VenueFeeds
  import KrakenReaders

  // ---------- Coinbase: nothing is dropped ----------

  predicate IsRejection(e: VenueSessionEvent) {
    e.Status? && e.status == Unsupported
  }

  /** The rejected products after one event. */
  function RejectedAfter(rejected: set<Product>, e: VenueSessionEvent): set<Product> {
    if IsRejection(e) then rejected + {e.Market().product} else rejected
  }

  /** The products rejected in a log, besides those rejected before it. */
  function RejectedBy(rejected: set<Product>, log: seq<VenueSessionEvent>): set<Product>
    decreases log
  {
    if log == [] then rejected
    else RejectedBy(RejectedAfter(rejected, log[0]), log[1..])
  }

  /** Every event is about a product of the universe, and about a rejected one only to reject it again. */
  predicate Sound(universe: Universe, rejected: set<Product>, log: seq<VenueSessionEvent>)
    decreases log
  {
    log != [] ==>
    && ValidMarket(Coinbase, universe, log[0])
    && (IsRejection(log[0]) || log[0].Market().product !in rejected)
    && Sound(universe, RejectedAfter(rejected, log[0]), log[1..])
  }

  lemma {:induction false} SoundSnoc(
      universe: Universe, rejected: set<Product>, log: seq<VenueSessionEvent>, e: VenueSessionEvent)
    requires Sound(universe, rejected, log) && ValidMarket(Coinbase, universe, e)
    requires IsRejection(e) || e.Market().product !in RejectedBy(rejected, log)
    ensures Sound(universe, rejected, log + [e])
    ensures RejectedBy(rejected, log + [e])
      == if IsRejection(e) then RejectedBy(rejected, log) + {e.Market().product} else RejectedBy(rejected, log)
    decreases log
  {
    if log == [] {
      assert [e][1..] == [];
      assert RejectedBy(rejected, [e]) == RejectedBy(
        if IsRejection(e) then rejected + {e.Market().product} else rejected, []);
    } else {
      var next := if IsRejection(log[0]) then rejected + {log[0].Market().product} else rejected;
      assert (log + [e])[1..] == log[1..] + [e] && (log + [e])[0] == log[0];
      SoundSnoc(universe, next, log[1..], e);
    }
  }

  lemma {:induction false} RejectedGrows(rejected: set<Product>, log: seq<VenueSessionEvent>)
    ensures RejectedBy(rejected, log) == rejected + RejectedBy({}, log)
    decreases log
  {
    if log != [] && IsRejection(log[0]) {
      var p := log[0].Market().product;
      RejectedGrows(rejected + {p}, log[1..]);
      RejectedGrows({p}, log[1..]);
      assert {} + {p} == {p};
    } else if log != [] {
      RejectedGrows(rejected, log[1..]);
    }
  }

  lemma {:induction false} SoundHead(
      universe: Universe, r: RunnerState, e: VenueSessionEvent, more: seq<VenueSessionEvent>)
    requires Sound(universe, r.unsupported, [e] + more)
    ensures AcceptCoinbase(universe, r, e)
      == Some(RunnerState(RejectedAfter(r.unsupported, e), r.sunk + [e], r.finished))
    ensures Sound(universe, RejectedAfter(r.unsupported, e), more)
    ensures RejectedBy(r.unsupported, [e] + more) == RejectedBy(RejectedAfter(r.unsupported, e), more)
  {
    assert ([e] + more)[0] == e && ([e] + more)[1..] == more;
  }

  lemma {:induction false} NextEmission(s: SessionState, wire: seq<Frame>)
    requires Known(s)
    ensures var read := CoinbaseSessions.ReadEvent(s, wire);
      Emissions(s, wire) == if read.event.None? then [] else [read.event.value] + Emissions(read.session, read.wire)
  {
    ReadShrinks(s, wire);
  }

  /** The runner passes a log on and remembers its rejections. */
  predicate PassedOn(r: RunnerState, log: seq<VenueSessionEvent>, done: RunnerState) {
    done.sunk == r.sunk + log && done.unsupported == RejectedBy(r.unsupported, log)
  }

  lemma {:induction false} PassedOnFirst(
      r: RunnerState, e: VenueSessionEvent, next: RunnerState, more: seq<VenueSessionEvent>, done: RunnerState)
    requires next.sunk == r.sunk + [e] && next.unsupported == RejectedAfter(r.unsupported, e)
    requires PassedOn(next, more, done)
    ensures PassedOn(r, [e] + more, done)
  {
    assert r.sunk + [e] + more == r.sunk + ([e] + more);
    assert ([e] + more)[0] == e && ([e] + more)[1..] == more;
  }

  /** A runner that is handed a sound log passes all of it on. */
  lemma {:induction false} SoundIsPassedOn(universe: Universe, r: RunnerState, s: SessionState, wire: seq<Frame>)
    requires Known(s) && Sound(universe, r.unsupported, Emissions(s, wire))
    ensures PassedOn(r, Emissions(s, wire), DriveCoinbase(universe, r, s, wire))
    decreases |wire|, |s.pending|
  {
    ReadShrinks(s, wire);
    NextEmission(s, wire);
    var read := CoinbaseSessions.ReadEvent(s, wire);
    if read.event.Some? {
      var e, more := read.event.value, Emissions(read.session, read.wire);
      var next := RunnerState(RejectedAfter(r.unsupported, e), r.sunk + [e], r.finished);
      var done := DriveCoinbase(universe, next, read.session, read.wire);
      SoundHead(universe, r, e, more);
      assert DriveCoinbase(universe, r, s, wire) == done by {
        DriveCoinbaseNext(universe, r, s, wire);
      }
      assert PassedOn(next, more, done) by {
        SoundIsPassedOn(universe, next, read.session, read.wire);
      }
      PassedOnFirst(r, e, next, more, done);
    } else {
      assert r.sunk + [] == r.sunk;
    }
  }

  /** The session's products are active, and its log is sound. */
  predicate Orderly(universe: Universe, rejected: set<Product>, s: SessionState) {
    && (forall p :: p in s.universe ==> p in universe && p !in rejected)
    && Sound(universe, rejected, s.pending)
    && RejectedBy(rejected, s.pending) == rejected + s.unsupported
  }

  lemma {:induction false} QueuedOrderly(universe: Universe, rejected: set<Product>, s: SessionState,
    e: VenueSessionEvent)
    requires Orderly(universe, rejected, s) && e.Market().venue == Coinbase && e.Market().product in s.universe
    requires IsRejection(e) || e.Market().product !in s.unsupported
    ensures var p := e.Market().product;
      Orderly(universe, rejected, s.(
        pending := s.pending + [e], unsupported := if IsRejection(e) then s.unsupported + {p} else s.unsupported))
  {
    SoundSnoc(universe, rejected, s.pending, e);
    assert rejected + (s.unsupported + {e.Market().product}) == rejected + s.unsupported + {e.Market().product};
  }

  lemma {:induction false} MessagesOrderly(
      universe: Universe, rejected: set<Product>, s: SessionState, ms: seq<BookMessage>, status: SequenceStatus)
    requires Known(s) && Orderly(universe, rejected, s) && ProcessMessages(s, ms, status).Some?
    ensures var next := ProcessMessages(s, ms, status).value;
      Orderly(universe, rejected, next) && next.universe == s.universe
  {
    if ms != [] {
      var front, m := ms[..|ms| - 1], ms[|ms| - 1];
      MessagesOrderly(universe, rejected, s, front, status);
      var mid := ProcessMessages(s, front, status).value;
      if m.product in mid.books && Applies(mid.books[m.product], m, status) {
        QueuedOrderly(
          universe, rejected, mid,
          Trusted(TrustedEvent(m, Reconstruct(mid.books[m.product], m, status).book)));
      }
    }
  }

  lemma {:induction false} InvalidateOrderly(
      universe: Universe, rejected: set<Product>, s: SessionState, products: seq<Product>)
    requires Known(s) && Orderly(universe, rejected, s)
    requires forall p :: p in products ==> p in s.universe && p in s.books
    ensures Orderly(universe, rejected, Invalidate(s, products))
  {
    if products != [] {
      var front, p := products[..|products| - 1], products[|products| - 1];
      InvalidateOrderly(universe, rejected, s, front);
      if p !in Invalidate(s, front).unsupported {
        QueuedOrderly(
          universe, rejected, Invalidate(s, front), Trusted(TrustedBookEvent(Invalidated, Market(p), 0, None)));
      }
    }
  }

  lemma {:induction false} FrameOrderly(universe: Universe, rejected: set<Product>, s: SessionState, f: Frame)
    requires Known(s) && Orderly(universe, rejected, s) && ProcessFrame(s, f).Some?
    ensures Orderly(universe, rejected, ProcessFrame(s, f).value)
  {
    match f {
      case Failing =>
      case PermanentRejection(product) =>
        QueuedOrderly(universe, rejected, s, Status(Market(product), Unsupported));
      case Data(number, messages) =>
        var status := Classify(s.last, number).status;
        var observed := s.(last := Advance(s.last, number));
        if status == Gap {
          InvalidateOrderly(universe, rejected, observed, s.universe);
        } else {
          MessagesOrderly(universe, rejected, observed, messages, status);
        }
    }
  }

  lemma {:induction false} StatusesOrderly(
      universe: Universe, rejected: set<Product>, log: seq<VenueSessionEvent>, products: seq<Product>,
      status: VenueMarketStatus)
    requires status != Unsupported && forall p :: p in products ==> p in universe && p !in rejected
    requires Sound(universe, rejected, log) && RejectedBy(rejected, log) == rejected
    ensures var all := log + Statuses(Coinbase, products, {}, status);
      Sound(universe, rejected, all) && RejectedBy(rejected, all) == rejected
  {
    if products == [] {
      assert log + [] == log;
    } else {
      var front, p := products[..|products| - 1], products[|products| - 1];
      var before, e := log + Statuses(Coinbase, front, {}, status), Status(MarketKey(Coinbase, p), status);
      StatusesOrderly(universe, rejected, log, front, status);
      SoundSnoc(universe, rejected, before, e);
      assert log + Statuses(Coinbase, products, {}, status) == before + [e];
    }
  }

  lemma {:induction false} ConsumedOrderly(
      universe: Universe, rejected: set<Product>, active: Universe, frames: seq<Frame>)
    requires (forall p :: p in active ==> p in universe && p !in rejected) && Consumed(active, frames).Some?
    ensures Orderly(universe, rejected, Consumed(active, frames).value)
  {
    if frames == [] {
      StatusesOrderly(universe, rejected, [], active, Connecting);
      assert [] + Statuses(Coinbase, active, {}, Connecting) == Statuses(Coinbase, active, {}, Connecting);
      StatusesOrderly(universe, rejected, Statuses(Coinbase, active, {}, Connecting), active, WaitingForSnapshot);
      assert rejected + {} == rejected;
    } else {
      ConsumedOrderly(universe, rejected, active, frames[..|frames| - 1]);
      FrameOrderly(universe, rejected, Consumed(active, frames[..|frames| - 1]).value, frames[|frames| - 1]);
    }
  }

  lemma {:induction false} ActiveAre(universe: Universe, rejected: set<Product>)
    ensures forall p :: p in ActiveProducts(universe, rejected) <==> p in universe && p !in rejected
  {
    if universe != [] {
      var front, p := universe[..|universe| - 1], universe[|universe| - 1];
      ActiveAre(front, rejected);
      assert universe == front + [p];
    }
  }

  /** The session over the products not yet rejected, and all that a reader gets from it. */
  function CoinbaseEmissions(universe: Universe, rejected: set<Product>, wire: seq<Frame>): seq<VenueSessionEvent> {
    var active := ActiveProducts(universe, rejected);
    if active == [] then [] else Emissions(Open(active), wire)
  }

  /** The runner hands on everything its session emits, in order, and remembers exactly its rejections. */
  lemma {:induction false} CoinbaseSinkGetsEverything(universe: Universe, r: RunnerState, wire: seq<Frame>)
    ensures var done, emitted := CoinbaseSession(universe, r, Some(wire)),
        CoinbaseEmissions(universe, r.unsupported, wire);
      done.sunk == r.sunk + emitted && done.unsupported == r.unsupported + RejectedBy({}, emitted)
  {
    var active := ActiveProducts(universe, r.unsupported);
    if active == [] {
      assert r.sunk + [] == r.sunk;
    } else {
      ActiveAre(universe, r.unsupported);
      EmissionsAreTheLog(active, wire);
      ConsumedOrderly(universe, r.unsupported, active, wire[..Survived(Open(active), wire)]);
      SoundIsPassedOn(universe, r, Open(active), wire);
      RejectedGrows(r.unsupported, Emissions(Open(active), wire));
    }
  }

  /** Between two connections: what is not rejected is disconnected and, unless nothing is left, reconnecting. */
  function RecoveryOf(venue: Venue, universe: Universe, rejected: set<Product>): seq<VenueSessionEvent> {
    Statuses(venue, universe, rejected, Disconnected)
    + if |rejected| == |universe| then [] else Statuses(venue, universe, rejected, Reconnecting)
  }

  /** One more connection of a runner that has not finished adds its session's emissions and the recovery. */
  lemma {:induction false} CoinbaseConnectionSinks(
      universe: Universe, wires: seq<Option<seq<Frame>>>, wire: Option<seq<Frame>>)
    ensures var r, next := RunCoinbase(universe, wires), RunCoinbase(universe, wires + [wire]);
      var emitted := if wire.None? then [] else CoinbaseEmissions(universe, r.unsupported, wire.value);
      && (r.finished ==> next == r)
      && (!r.finished ==>
            && next.sunk == r.sunk + emitted + RecoveryOf(Coinbase, universe, next.unsupported)
            && next.unsupported == r.unsupported + RejectedBy({}, emitted)
            && (next.finished <==> |next.unsupported| == |universe|))
  {
    var r := RunCoinbase(universe, wires);
    assert (wires + [wire])[..|wires|] == wires;
    if wire.Some? {
      CoinbaseSinkGetsEverything(universe, r, wire.value);
    } else {
      assert r.sunk + [] == r.sunk;
    }
    if !r.finished {
      NotFinished(universe, r, wire);
      RecoveryAppends(Coinbase, universe, CoinbaseSession(universe, r, wire));
    }
  }

  lemma {:induction false} RecoveryAppends(venue: Venue, universe: Universe, r: RunnerState)
    requires !r.finished
    ensures var next := Recover(venue, universe, r);
      && next.sunk == r.sunk + RecoveryOf(venue, universe, r.unsupported)
      && next.unsupported == r.unsupported && (next.finished <==> |r.unsupported| == |universe|)
  {
    var told := Statuses(venue, universe, r.unsupported, Disconnected);
    assert told + [] == told;
    assert r.sunk + told + Statuses(venue, universe, r.unsupported, Reconnecting)
      == r.sunk + (told + Statuses(venue, universe, r.unsupported, Reconnecting));
  }

  lemma {:induction false} DriveNotFinished(universe: Universe, r: RunnerState, s: SessionState, wire: seq<Frame>)
    requires Known(s)
    ensures DriveCoinbase(universe, r, s, wire).finished == r.finished
    decreases |wire|, |s.pending|
  {
    ReadShrinks(s, wire);
    var read := CoinbaseSessions.ReadEvent(s, wire);
    if read.event.Some? && AcceptCoinbase(universe, r, read.event.value).Some? {
      DriveNotFinished(universe, AcceptCoinbase(universe, r, read.event.value).value, read.session, read.wire);
    }
  }

  lemma {:induction false} NotFinished(universe: Universe, r: RunnerState, wire: Option<seq<Frame>>)
    ensures CoinbaseSession(universe, r, wire).finished == r.finished
  {
    var active := ActiveProducts(universe, r.unsupported);
    if active != [] && wire.Some? {
      DriveNotFinished(universe, r, Open(active), wire.value);
    }
  }

  // ---------- Kraken: nothing is dropped ----------

  /** Everything a session's queue and symbols are about lies in the universe. */
  predicate Within(universe: Universe, s: KrakenState) {
    && Belongs(Kraken, universe, s.pending)
    && forall symbol :: symbol in s.byNative ==> s.byNative[symbol] in universe
  }

  lemma {:induction false} BelongsSnoc(
      venue: Venue, universe: Universe, log: seq<VenueSessionEvent>, e: VenueSessionEvent)
    requires Belongs(venue, universe, log) && ValidMarket(venue, universe, e)
    ensures Belongs(venue, universe, log + [e])
  {}

  lemma {:induction false} FrameWithin(env: Environment, universe: Universe, s: KrakenState, f: KrakenFrame)
    requires Dispatches(s) && Within(universe, s) && FrameStep(env, s, f).Some?
    ensures Within(universe, FrameStep(env, s, f).value)
    ensures Belongs(Kraken, universe, KrakenReaders.FrameLog(env, s, f))
  {
    if f.Acknowledgement? {
      BelongsSnoc(Kraken, universe, s.pending, StatusOf(s.byNative[f.symbol], Unsupported));
      BelongsSnoc(Kraken, universe, s.pending, StatusOf(s.byNative[f.symbol], WaitingForSnapshot));
    }
  }

  lemma {:induction false} EmissionsBelong(
      env: Environment, universe: Universe, s: KrakenState, wire: seq<KrakenFrame>)
    requires Dispatches(s) && Within(universe, s)
    ensures Belongs(Kraken, universe, KrakenReaders.Emissions(env, s, wire))
    decreases |wire|, |s.pending|
  {
    if s.pending != [] {
      KrakenReaders.EmissionsPop(env, s, wire);
      EmissionsBelong(env, universe, s.(pending := s.pending[1..]), wire);
    } else if s.reconnect || wire == [] || FrameStep(env, s, wire[0]).None? {
      KrakenReaders.EmissionsEnd(env, s, wire);
    } else {
      KrakenReaders.EmissionsStep(env, s, wire);
      FrameWithin(env, universe, s, wire[0]);
      EmissionsBelong(env, universe, FrameStep(env, s, wire[0]).value, wire[1..]);
    }
  }

  lemma {:induction false} ConfigureWithin(
      universe: Universe, s: KrakenState, catalog: Catalog, products: seq<Product>)
    requires Dispatches(s) && Within(universe, s) && Configure(s, catalog, products).Some?
    requires forall p :: p in products ==> p in universe
    ensures Within(universe, Configure(s, catalog, products).value)
  {
    if products != [] {
      var front, p := products[..|products| - 1], products[|products| - 1];
      ConfigureWithin(universe, s, catalog, front);
      BelongsSnoc(Kraken, universe, Configure(s, catalog, front).value.pending, StatusOf(p, Unsupported));
    }
  }

  lemma {:induction false} OpenedWithin(universe: Universe, wire: seq<KrakenFrame>)
    requires OpenOnWire(universe, wire).Some?
    ensures Within(universe, OpenOnWire(universe, wire).value.session)
  {
    StatusesBelong(Kraken, universe, universe, {}, Connecting);
    ConfigureWithin(universe, Unconfigured(universe), Discover(wire).value.0, universe);
  }

  lemma {:induction false} NextKrakenEmission(env: Environment, s: KrakenState, wire: seq<KrakenFrame>)
    requires Dispatches(s)
    ensures var read := ReadKraken(env, s, wire);
      KrakenReaders.Emissions(env, s, wire)
        == if read.event.None? then [] else [read.event.value] + KrakenReaders.Emissions(env, read.session, read.wire)
  {}

  /** A rejection lasts until a new session reports the product connecting. */
  function StillRejected(rejected: set<Product>, log: seq<VenueSessionEvent>): set<Product>
    decreases log
  {
    if log == [] then rejected
    else
      var e := log[0];
      StillRejected(
        if IsRejection(e) then rejected + {e.Market().product}
        else if e.Status? && e.status == Connecting then rejected - {e.Market().product}
        else rejected, log[1..])
  }

  lemma {:induction false} BelongsHead(
      universe: Universe, r: RunnerState, e: VenueSessionEvent, more: seq<VenueSessionEvent>)
    requires Belongs(Kraken, universe, [e] + more)
    ensures AcceptKraken(universe, r, e).Some? && AcceptKraken(universe, r, e).value.sunk == r.sunk + [e]
    ensures AcceptKraken(universe, r, e).value.finished == r.finished
    ensures StillRejected(r.unsupported, [e] + more)
      == StillRejected(AcceptKraken(universe, r, e).value.unsupported, more)
    ensures Belongs(Kraken, universe, more)
  {
    var all := [e] + more;
    assert ValidMarket(Kraken, universe, all[0]) && all[0] == e && all[1..] == more;
    forall i | 0 <= i < |more| ensures ValidMarket(Kraken, universe, more[i]) {
      assert more[i] == all[i + 1];
    }
  }

  predicate KrakenPassedOn(r: RunnerState, log: seq<VenueSessionEvent>, done: RunnerState) {
    && done.sunk == r.sunk + log && done.finished == r.finished
    && done.unsupported == StillRejected(r.unsupported, log)
  }

  lemma {:induction false} KrakenPassedOnFirst(
      universe: Universe, r: RunnerState, e: VenueSessionEvent, more: seq<VenueSessionEvent>, done: RunnerState)
    requires Belongs(Kraken, universe, [e] + more) && AcceptKraken(universe, r, e).Some?
    requires KrakenPassedOn(AcceptKraken(universe, r, e).value, more, done)
    ensures KrakenPassedOn(r, [e] + more, done)
  {
    BelongsHead(universe, r, e, more);
    assert r.sunk + [e] + more == r.sunk + ([e] + more);
  }

  lemma {:induction false} BelongingIsPassedOn(
      env: Environment, universe: Universe, r: RunnerState, s: KrakenState, wire: seq<KrakenFrame>)
    requires Dispatches(s) && Belongs(Kraken, universe, KrakenReaders.Emissions(env, s, wire))
    ensures KrakenPassedOn(r, KrakenReaders.Emissions(env, s, wire), DriveKraken(env, universe, r, s, wire))
    decreases |wire|, |s.pending|
  {
    NextKrakenEmission(env, s, wire);
    var read := ReadKraken(env, s, wire);
    if read.event.Some? {
      var e, more := read.event.value, KrakenReaders.Emissions(env, read.session, read.wire);
      BelongsHead(universe, r, e, more);
      var next := AcceptKraken(universe, r, e).value;
      var done := DriveKraken(env, universe, next, read.session, read.wire);
      assert DriveKraken(env, universe, r, s, wire) == done by {
        DriveKrakenNext(env, universe, r, s, wire);
      }
      assert KrakenPassedOn(next, more, done) by {
        BelongingIsPassedOn(env, universe, next, read.session, read.wire);
      }
      KrakenPassedOnFirst(universe, r, e, more, done);
    } else {
      assert r.sunk + [] == r.sunk;
    }
  }

  /** All that a reader gets from one connection, once its instruments are known. */
  function KrakenEmissionsOf(
      env: Environment, universe: Universe, wire: Option<seq<KrakenFrame>>): seq<VenueSessionEvent>
  {
    if wire.None? then []
    else match OpenOnWire(universe, wire.value)
      case None => []
      case Some(ready) => KrakenReaders.Emissions(env, ready.session, ready.wire)
  }

  /** The same for Kraken: everything the session emits reaches the sink, in order. */
  lemma {:induction false} KrakenSinkGetsEverything(
      env: Environment, universe: Universe, r: RunnerState, wire: Option<seq<KrakenFrame>>)
    ensures var done := KrakenSession(env, universe, r, wire);
      var emitted := KrakenEmissionsOf(env, universe, wire);
      && done.sunk == r.sunk + emitted && done.finished == r.finished
      && done.unsupported == StillRejected(r.unsupported, emitted)
  {
    if wire.Some? && OpenOnWire(universe, wire.value).Some? {
      var ready := OpenOnWire(universe, wire.value).value;
      OpenedWithin(universe, wire.value);
      EmissionsBelong(env, universe, ready.session, ready.wire);
      BelongingIsPassedOn(env, universe, r, ready.session, ready.wire);
    } else {
      assert r.sunk + [] == r.sunk;
    }
  }

  lemma {:induction false} KrakenConnectionSinks(
      env: Environment, universe: Universe, wires: seq<Option<seq<KrakenFrame>>>, wire: Option<seq<KrakenFrame>>)
    ensures var r, next := RunKraken(env, universe, wires), RunKraken(env, universe, wires + [wire]);
      && (r.finished ==> next == r)
      && (!r.finished ==>
            && next.sunk
               == r.sunk + KrakenEmissionsOf(env, universe, wire) + RecoveryOf(Kraken, universe, next.unsupported)
            && next.unsupported == StillRejected(r.unsupported, KrakenEmissionsOf(env, universe, wire))
            && (next.finished <==> |next.unsupported| == |universe|))
  {
    var r := RunKraken(env, universe, wires);
    assert (wires + [wire])[..|wires|] == wires;
    KrakenSinkGetsEverything(env, universe, r, wire);
    if !r.finished {
      RecoveryAppends(Kraken, universe, KrakenSession(env, universe, r, wire));
    }
  }

  // ---------- When a Coinbase session fails ----------

  /**
   A frame throws if and only if it fails itself, rejects a product of another session, or
   carries a message of a product that is foreign or rejected, unless its number skips some.
   */
  lemma {:induction false} CoinbaseFrameThrowsIff(s: SessionState, f: Frame)
    requires Known(s)
    ensures ProcessFrame(s, f).None? <==>
      || f.Failing?
      || (f.PermanentRejection? && f.product !in s.universe)
      || (f.Data? && Classify(s.last, f.number).status != Gap
          && exists i :: 0 <= i < |f.messages| && Refused(s, f.messages[i]))
  {
    if f.Data? {
      MessagesThrowIff(s.(last := Advance(s.last, f.number)), f.messages, Classify(s.last, f.number).status);
    }
  }

  predicate Refused(s: SessionState, m: BookMessage) {
    m.product !in s.universe || m.product in s.unsupported
  }

  lemma {:induction false} MessagesThrowIff(s: SessionState, ms: seq<BookMessage>, status: SequenceStatus)
    requires Known(s)
    ensures ProcessMessages(s, ms, status).None? <==>
      exists i :: 0 <= i < |ms| && (ms[i].product !in s.universe || ms[i].product in s.unsupported)
    ensures ProcessMessages(s, ms, status).Some? ==>
      ProcessMessages(s, ms, status).value.universe == s.universe
      && ProcessMessages(s, ms, status).value.unsupported == s.unsupported
  {
    if ms != [] {
      var front := ms[..|ms| - 1];
      MessagesThrowIff(s, front, status);
      if i :| 0 <= i < |front| && (front[i].product !in s.universe || front[i].product in s.unsupported) {
        assert ms[i] == front[i];
      }
    }
  }

  // ---------- The statuses of a Coinbase session ----------

  function StatusesIn(log: seq<VenueSessionEvent>, market: MarketKey): seq<VenueMarketStatus> {
    if log == [] then []
    else
      var e := log[|log| - 1];
      StatusesIn(log[..|log| - 1], market) + if e.Status? && e.key == market then [e.status] else []
  }

  /** One `Unsupported` for every rejection of the product among the frames. */
  function Rejections(frames: seq<Frame>, product: Product): seq<VenueMarketStatus> {
    if frames == [] then []
    else
      Rejections(frames[..|frames| - 1], product)
      + if frames[|frames| - 1] == PermanentRejection(product) then [Unsupported] else []
  }

  lemma {:induction false} StatusesInSnoc(log: seq<VenueSessionEvent>, e: VenueSessionEvent, market: MarketKey)
    ensures StatusesIn(log + [e], market)
      == if e.Status? && e.key == market then StatusesIn(log, market) + [e.status] else StatusesIn(log, market)
  {
    assert (log + [e])[..|log|] == log;
  }

  lemma {:induction false} ListedStatuses(
      log: seq<VenueSessionEvent>, products: seq<Product>, status: VenueMarketStatus, product: Product)
    requires Distinct(products)
    ensures StatusesIn(log + Statuses(Coinbase, products, {}, status), Market(product))
      == if product in products then StatusesIn(log, Market(product)) + [status] else StatusesIn(log, Market(product))
  {
    if products == [] {
      assert log + [] == log;
    } else {
      var front, p := products[..|products| - 1], products[|products| - 1];
      var before := log + Statuses(Coinbase, front, {}, status);
      assert products == front + [p];
      ListedStatuses(log, front, status, product);
      StatusesInSnoc(before, Status(Market(p), status), Market(product));
      assert log + Statuses(Coinbase, products, {}, status) == before + [Status(Market(p), status)];
    }
  }

  lemma {:induction false} MessagesTellNothing(
      s: SessionState, ms: seq<BookMessage>, status: SequenceStatus, market: MarketKey)
    requires Known(s) && ProcessMessages(s, ms, status).Some?
    ensures StatusesIn(ProcessMessages(s, ms, status).value.pending, market) == StatusesIn(s.pending, market)
  {
    if ms != [] {
      var front, m := ms[..|ms| - 1], ms[|ms| - 1];
      MessagesTellNothing(s, front, status, market);
      var mid := ProcessMessages(s, front, status).value;
      if m.product in mid.books {
        StatusesInSnoc(
          mid.pending, Trusted(TrustedEvent(m, Reconstruct(mid.books[m.product], m, status).book)), market);
      }
    }
  }

  lemma {:induction false} InvalidateTellsNothing(s: SessionState, products: seq<Product>, market: MarketKey)
    requires Known(s) && forall p :: p in products ==> p in s.books
    ensures StatusesIn(Invalidate(s, products).pending, market) == StatusesIn(s.pending, market)
  {
    if products != [] {
      var front, p := products[..|products| - 1], products[|products| - 1];
      InvalidateTellsNothing(s, front, market);
      StatusesInSnoc(
        Invalidate(s, front).pending, Trusted(TrustedBookEvent(Invalidated, Market(p), 0, None)), market);
    }
  }

  /** A product is reported connecting, then waiting, then unsupported once for every rejection taken. */
  lemma {:induction false} SessionTellsStatuses(active: Universe, frames: seq<Frame>, product: Product)
    requires Distinct(active) && product in active && Consumed(active, frames).Some?
    ensures StatusesIn(Consumed(active, frames).value.pending, Market(product))
      == [Connecting, WaitingForSnapshot] + Rejections(frames, product)
  {
    if frames == [] {
      ListedStatuses([], active, Connecting, product);
      assert [] + Statuses(Coinbase, active, {}, Connecting) == Statuses(Coinbase, active, {}, Connecting);
      ListedStatuses(Statuses(Coinbase, active, {}, Connecting), active, WaitingForSnapshot, product);
    } else {
      var front, f := frames[..|frames| - 1], frames[|frames| - 1];
      SessionTellsStatuses(active, front, product);
      FrameTellsStatus(Consumed(active, front).value, f, product);
    }
  }

  lemma {:induction false} FrameTellsStatus(s: SessionState, f: Frame, product: Product)
    requires Known(s) && ProcessFrame(s, f).Some?
    ensures StatusesIn(ProcessFrame(s, f).value.pending, Market(product)) == StatusesIn(s.pending, Market(product))
      + if f == PermanentRejection(product) then [Unsupported] else []
  {
    match f {
      case Failing =>
      case PermanentRejection(p) =>
        StatusesInSnoc(s.pending, Status(Market(p), Unsupported), Market(product));
      case Data(number, messages) =>
        var status := Classify(s.last, number).status;
        var observed := s.(last := Advance(s.last, number));
        if status == Gap {
          InvalidateTellsNothing(observed, s.universe, Market(product));
        } else {
          MessagesTellNothing(observed, messages, status, Market(product));
        }
    }
  }

  /** So a reader gets exactly these statuses of a product before the session fails. */
  lemma {:induction false} CoinbaseReadersSeeTheStatuses(active: Universe, wire: seq<Frame>, product: Product)
    requires Distinct(active) && product in active
    ensures StatusesIn(Emissions(Open(active), wire), Market(product))
      == [Connecting, WaitingForSnapshot] + Rejections(wire[..Survived(Open(active), wire)], product)
  {
    EmissionsAreTheLog(active, wire);
    SessionTellsStatuses(active, wire[..Survived(Open(active), wire)], product);
  }
}
