/** The two runners as nested loops over real sessions, feeding one sink. */
module VenueRunnerLoops {
  import opened Wrappers
  import opened VenueEvents
  import opened CoinbaseSessions
  import opened KrakenSessions
  import opened VenueRunners

  /** Everything the sink was called with. */
  class EventSink {
    var events: seq<VenueSessionEvent>

    constructor ()
      ensures events == []
    {
      events := [];
    }

    method Emit(e: VenueSessionEvent)
      modifies this
      ensures events == old(events) + [e]
    {
      events := events + [e];
    }
  }

  /** The stop check: it says no `patience` times, then yes. */
  class StopCheck {
    var patience: nat
    var stopped: bool

    constructor (patience: nat)
      ensures this.patience == patience && !stopped
    {
      this.patience, stopped := patience, false;
    }

    method Ask() returns (stop: bool)
      modifies this
      ensures stop == (old(patience) == 0) && stopped == (old(stopped) || stop)
    {
      stop := patience == 0;
      if stop {
        stopped := true;
      } else {
        patience := patience - 1;
      }
    }
  }

  method PublishRecoveryStatus(
      sink: EventSink, venue: Venue, universe: Universe, unsupported: set<Product>, status: VenueMarketStatus)
    modifies sink
    ensures sink.events == old(sink.events) + Statuses(venue, universe, unsupported, status)
  {
    for i := 0 to |universe|
      invariant sink.events == old(sink.events) + Statuses(venue, universe[..i], unsupported, status)
    {
      assert universe[..i + 1][..i] == universe[..i];
      if universe[i] !in unsupported {
        sink.Emit(Status(MarketKey(venue, universe[i]), status));
      }
    }
    assert universe[..|universe|] == universe;
  }

  /** The recovery part of the catch block; true when the runner gives up. */
  method RecoverySteps(sink: EventSink, venue: Venue, universe: Universe, unsupported: set<Product>)
      returns (finished: bool)
    modifies sink
    ensures RunnerState(unsupported, sink.events, finished)
      == Recover(venue, universe, RunnerState(unsupported, old(sink.events), false))
  {
    PublishRecoveryStatus(sink, venue, universe, unsupported, Disconnected);
    if |unsupported| == |universe| {
      return true;
    }
    PublishRecoveryStatus(sink, venue, universe, unsupported, Reconnecting);
    return false;
  }

  class CoinbaseUniverseRunner {
    const universe: Universe
    const sink: EventSink
    var unsupported: set<Product>

    constructor (universe: Universe, sink: EventSink)
      requires sink.events == []
      ensures this.universe == universe && this.sink == sink && State() == STARTED
    {
      this.universe, this.sink, unsupported := universe, sink, {};
    }

    function State(): RunnerState
      reads this, sink
    {
      RunnerState(unsupported, sink.events, false)
    }

    /** One event from the session; `ok` is false for an exception, `passed` says whether the sink was called. */
    method Handle(e: VenueSessionEvent) returns (ok: bool, passed: bool)
      modifies this, sink
      ensures passed == (sink.events != old(sink.events))
      ensures match AcceptCoinbase(universe, old(State()), e)
        case None => !ok && State() == old(State())
        case Some(next) => ok && State() == next
    {
      if !ValidMarket(Coinbase, universe, e) {
        return false, false;
      }
      var p := e.Market().product;
      if e.Status? {
        if e.status == Unsupported {
          unsupported := unsupported + {p};
        } else if p in unsupported {
          return true, false;
        }
      } else if p in unsupported {
        return false, false;
      }
      sink.Emit(e);
      return true, true;
    }

    /** One event from the session to the sink; false when either throws. */
    method PassOn(session: CoinbaseUniverseSession, wire: seq<Frame>)
        returns (ok: bool, passed: bool, rest: seq<Frame>)
      requires session.Valid()
      modifies this, sink, session, session.sequence, Repr(session.books)
      ensures session.Valid() && session.books == old(session.books)
      ensures var all := DriveCoinbase(universe, old(State()), old(session.State()), wire);
        all == if ok then DriveCoinbase(universe, State(), session.State(), rest) else State()
      ensures ok ==> |rest| < |wire| || (|rest| == |wire| && |session.pending| < old(|session.pending|))
    {
      ReadShrinks(session.State(), wire);
      DriveCoinbaseNext(universe, State(), session.State(), wire);
      var event;
      event, rest := session.Read(wire);
      if event.None? {
        return false, false, rest;
      }
      ghost var read := session.State();
      ok, passed := Handle(event.value);
      assert session.State() == read;
    }

    /** One turn of the inner loop; it is the last one when something throws or a stop is asked for. */
    method Turn(session: CoinbaseUniverseSession, wire: seq<Frame>, check: StopCheck)
        returns (last: bool, rest: seq<Frame>)
      requires session.Valid() && !check.stopped
      modifies this, sink, check, session, session.sequence, Repr(session.books)
      ensures session.Valid() && session.books == old(session.books)
      ensures var all := DriveCoinbase(universe, old(State()), old(session.State()), wire);
        && sink.events <= all.sunk
        && (last ==> check.stopped || State() == all)
        && (!last ==>
              && !check.stopped && DriveCoinbase(universe, State(), session.State(), rest) == all
              && (|rest| < |wire| || (|rest| == |wire| && |session.pending| < old(|session.pending|))))
    {
      ghost var r, s := State(), session.State();
      DriveCoinbaseExtends(universe, r, s, wire);
      last := check.Ask();
      if last {
        return last, wire;
      }
      assert State() == r && session.State() == s;
      var ok, passed;
      ok, passed, rest := PassOn(session, wire);
      if !ok {
        return true, rest;
      }
      ghost var next, read := State(), session.State();
      DriveCoinbaseExtends(universe, next, read, rest);
      if passed {
        last := check.Ask();
      }
      assert State() == next && session.State() == read;
    }

    /** The inner loop. */
    method RunSession(session: CoinbaseUniverseSession, wire: seq<Frame>, check: StopCheck)
      requires session.Valid() && !check.stopped
      modifies this, sink, check, session, session.sequence, Repr(session.books)
      ensures var all := DriveCoinbase(universe, old(State()), old(session.State()), wire);
        sink.events <= all.sunk && (!check.stopped ==> State() == all)
    {
      var rest := wire;
      var last := false;
      while !last
        invariant session.Valid() && session.books == old(session.books)
        invariant var all := DriveCoinbase(universe, old(State()), old(session.State()), wire);
          && (last ==> sink.events <= all.sunk && (check.stopped || State() == all))
          && (!last ==> !check.stopped && DriveCoinbase(universe, State(), session.State(), rest) == all)
        decreases !last, |rest|, |session.pending|
      {
        last, rest := Turn(session, rest, check);
      }
    }

    /** One session, from the factory to its failure. */
    method TrySession(wire: Option<seq<Frame>>, check: StopCheck)
      requires !check.stopped
      modifies this, sink, check
      ensures var all := CoinbaseSession(universe, old(State()), wire);
        sink.events <= all.sunk && (!check.stopped ==> State() == all)
    {
      var active := ActiveProducts(universe, unsupported);
      if active == [] || wire.None? {
        return;
      }
      var session := new CoinbaseUniverseSession(active);
      RunSession(session, wire.value, check);
    }

    /** One turn of the outer loop; `finished` is set when no product is left to run. */
    method Connection(wire: Option<seq<Frame>>, check: StopCheck) returns (finished: bool)
      requires !check.stopped
      modifies this, sink, check
      ensures var all := CoinbaseConnection(universe, old(State()), wire);
        sink.events <= all.sunk && (!check.stopped ==> State().(finished := finished) == all)
    {
      CoinbaseSessionExtends(universe, State(), wire);
      RecoveryAddsStatuses(Coinbase, universe, CoinbaseSession(universe, State(), wire));
      finished := false;
      var stop := check.Ask();
      if stop {
        return;
      }
      TrySession(wire, check);
      if check.stopped {
        return;
      }
      stop := check.Ask();
      if stop {
        return;
      }
      finished := RecoverySteps(sink, Coinbase, universe, unsupported);
    }

    /**
     The outer loop over connections; a `None` is a factory that throws. Wherever a stop
     request comes, what the sink has got is a beginning of what it would have got.
     */
    method Run(wires: seq<Option<seq<Frame>>>, check: StopCheck)
      requires State() == STARTED && !check.stopped
      modifies this, sink, check
      ensures sink.events <= RunCoinbase(universe, wires).sunk
      ensures !check.stopped ==>
        sink.events == RunCoinbase(universe, wires).sunk && unsupported == RunCoinbase(universe, wires).unsupported
    {
      var finished := false;
      for i := 0 to |wires|
        invariant !check.stopped
        invariant RunCoinbase(universe, wires[..i]) == State().(finished := finished)
      {
        assert wires[..i + 1][..i] == wires[..i];
        CoinbaseRunExtends(universe, wires, i + 1);
        if !finished {
          finished := Connection(wires[i], check);
          if check.stopped {
            return;
          }
        }
      }
      assert wires[..|wires|] == wires;
    }
  }

  class KrakenUniverseRunner {
    const env: Environment
    const universe: Universe
    const sink: EventSink
    var unsupported: set<Product>

    constructor (env: Environment, universe: Universe, sink: EventSink)
      requires sink.events == []
      ensures this.env == env && this.universe == universe && this.sink == sink && State() == STARTED
    {
      this.env, this.universe, this.sink, unsupported := env, universe, sink, {};
    }

    function State(): RunnerState
      reads this, sink
    {
      RunnerState(unsupported, sink.events, false)
    }

    method Handle(e: VenueSessionEvent) returns (ok: bool, passed: bool)
      modifies this, sink
      ensures passed == (sink.events != old(sink.events))
      ensures match AcceptKraken(universe, old(State()), e)
        case None => !ok && State() == old(State())
        case Some(next) => ok && State() == next
    {
      if !ValidMarket(Kraken, universe, e) {
        return false, false;
      }
      if e.Status? {
        if e.status == Unsupported {
          unsupported := unsupported + {e.Market().product};
        } else if e.status == Connecting {
          unsupported := unsupported - {e.Market().product};
        }
      }
      sink.Emit(e);
      return true, true;
    }

    /** One event from the session to the sink; false when either throws. */
    method PassOn(session: KrakenUniverseSession, wire: seq<KrakenFrame>)
        returns (ok: bool, passed: bool, rest: seq<KrakenFrame>)
      requires session.Valid() && session.env == env
      modifies this, sink, session, session.adapters.Values
      ensures session.Valid() && session.adapters == old(session.adapters)
      ensures var all := DriveKraken(env, universe, old(State()), old(session.State()), wire);
        all == if ok then DriveKraken(env, universe, State(), session.State(), rest) else State()
      ensures ok ==> |rest| < |wire| || (|rest| == |wire| && |session.pending| < old(|session.pending|))
    {
      DriveKrakenNext(env, universe, State(), session.State(), wire);
      var event;
      event, rest := session.Read(wire);
      if event.None? {
        return false, false, rest;
      }
      ghost var read := session.State();
      ok, passed := Handle(event.value);
      assert session.State() == read;
    }

    /** One turn of the inner loop; it is the last one when something throws or a stop is asked for. */
    method Turn(session: KrakenUniverseSession, wire: seq<KrakenFrame>, check: StopCheck)
        returns (last: bool, rest: seq<KrakenFrame>)
      requires session.Valid() && session.env == env && !check.stopped
      modifies this, sink, check, session, session.adapters.Values
      ensures session.Valid() && session.adapters == old(session.adapters)
      ensures var all := DriveKraken(env, universe, old(State()), old(session.State()), wire);
        && sink.events <= all.sunk
        && (last ==> check.stopped || State() == all)
        && (!last ==>
              && !check.stopped && DriveKraken(env, universe, State(), session.State(), rest) == all
              && (|rest| < |wire| || (|rest| == |wire| && |session.pending| < old(|session.pending|))))
    {
      ghost var r, s := State(), session.State();
      DriveKrakenExtends(env, universe, r, s, wire);
      last := check.Ask();
      if last {
        return last, wire;
      }
      assert State() == r && session.State() == s;
      var ok, passed;
      ok, passed, rest := PassOn(session, wire);
      if !ok {
        return true, rest;
      }
      ghost var next, read := State(), session.State();
      DriveKrakenExtends(env, universe, next, read, rest);
      if passed {
        last := check.Ask();
      }
      assert State() == next && session.State() == read;
    }

    /** The inner loop. */
    method RunSession(session: KrakenUniverseSession, wire: seq<KrakenFrame>, check: StopCheck)
      requires session.Valid() && session.env == env && !check.stopped
      modifies this, sink, check, session, session.adapters.Values
      ensures var all := DriveKraken(env, universe, old(State()), old(session.State()), wire);
        sink.events <= all.sunk && (!check.stopped ==> State() == all)
    {
      var rest := wire;
      var last := false;
      while !last
        invariant session.Valid() && session.adapters == old(session.adapters)
        invariant var all := DriveKraken(env, universe, old(State()), old(session.State()), wire);
          && (last ==> sink.events <= all.sunk && (check.stopped || State() == all))
          && (!last ==> !check.stopped && DriveKraken(env, universe, State(), session.State(), rest) == all)
        decreases !last, |rest|, |session.pending|
      {
        last, rest := Turn(session, rest, check);
      }
    }

    /** One session, from the factory to its failure. */
    method TrySession(wire: Option<seq<KrakenFrame>>, check: StopCheck)
      requires !check.stopped
      modifies this, sink, check
      ensures var all := KrakenSession(env, universe, old(State()), wire);
        sink.events <= all.sunk && (!check.stopped ==> State() == all)
    {
      if wire.None? {
        return;
      }
      var session := new KrakenUniverseSession(env, universe);
      var ok, rest := session.Initialize(wire.value);
      if ok {
        RunSession(session, rest, check);
      }
    }

    /** One turn of the outer loop; `finished` is set when no product is left to run. */
    method Connection(wire: Option<seq<KrakenFrame>>, check: StopCheck) returns (finished: bool)
      requires !check.stopped
      modifies this, sink, check
      ensures var all := KrakenConnection(env, universe, old(State()), wire);
        sink.events <= all.sunk && (!check.stopped ==> State().(finished := finished) == all)
    {
      KrakenSessionExtends(env, universe, State(), wire);
      RecoveryAddsStatuses(Kraken, universe, KrakenSession(env, universe, State(), wire));
      finished := false;
      var stop := check.Ask();
      if stop {
        return;
      }
      TrySession(wire, check);
      if check.stopped {
        return;
      }
      stop := check.Ask();
      if stop {
        return;
      }
      finished := RecoverySteps(sink, Kraken, universe, unsupported);
    }

    /**
     The outer loop over connections; a `None` is a factory that throws. Wherever a stop
     request comes, what the sink has got is a beginning of what it would have got.
     */
    method Run(wires: seq<Option<seq<KrakenFrame>>>, check: StopCheck)
      requires State() == STARTED && !check.stopped
      modifies this, sink, check
      ensures sink.events <= RunKraken(env, universe, wires).sunk
      ensures !check.stopped ==>
        && sink.events == RunKraken(env, universe, wires).sunk
        && unsupported == RunKraken(env, universe, wires).unsupported
    {
      var finished := false;
      for i := 0 to |wires|
        invariant !check.stopped
        invariant RunKraken(env, universe, wires[..i]) == State().(finished := finished)
      {
        assert wires[..i + 1][..i] == wires[..i];
        KrakenRunExtends(env, universe, wires, i + 1);
        if !finished {
          finished := Connection(wires[i], check);
          if check.stopped {
            return;
          }
        }
      }
      assert wires[..|wires|] == wires;
    }
  }
}
