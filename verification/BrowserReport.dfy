/**
 What a browser tells its user, against references on the run itself: the peak of all
 columns reported, and the source status told last.
 */
module BrowserReports {
  import opened Wrappers
  import opened VenueEvents
  import opened HeatmapHistories
  import opened LiveHeatmapEngines
  import opened ColumnMirrors
  import opened LiveStreams
  import opened BrowserClients
  import opened EngineHistories
  import opened LiveReplication

  /** The calls that the running session's engine has processed. */
  function SessionCalls(heatmap: HeatmapConfig, product: Product, actions: seq<Action>): seq<EngineCall>
    requires heatmap.Valid()
  {
    if actions == [] then []
    else
      var before, a := actions[..|actions| - 1], actions[|actions| - 1];
      var s := Run(heatmap, product, before);
      var calls := SessionCalls(heatmap, product, before);
      match a
      case StartRunner => if Start(s) == s then calls else []
      case Process(call) => if s.runner.Some? && s.runner.value.pending.None? then calls + [call] else calls
      case _ => calls
  }

  lemma {:induction false} EngineRunSnoc(cfg: EngineConfig, calls: seq<EngineCall>, call: EngineCall)
    requires cfg.heatmap.Valid()
    ensures EngineRun(cfg, calls + [call]) == EngineStep(cfg, EngineRun(cfg, calls), call).state
  {
    assert (calls + [call])[..|calls|] == calls;
  }

  predicate RanOn(s: System, calls: seq<EngineCall>) {
    s.runner.Some? ==>
      var r := s.runner.value; r.cfg.heatmap.Valid() && r.engine == EngineRun(r.cfg, calls)
  }

  lemma {:induction false} StepRanOn(s: System, a: Action, calls: seq<EngineCall>)
    requires SystemValid(s) && RanOn(s, calls) && !a.StartRunner? && !a.Process?
    ensures RanOn(Act(s, a), calls)
  {}

  lemma {:induction false} StartRanOn(s: System, calls: seq<EngineCall>)
    requires SystemValid(s) && RanOn(s, calls)
    ensures RanOn(Start(s), if Start(s) == s then calls else [])
  {}

  lemma {:induction false} ProcessRanOn(s: System, call: EngineCall, calls: seq<EngineCall>)
    requires SystemValid(s) && RanOn(s, calls)
    ensures RanOn(
      ProcessCall(s, call), if s.runner.Some? && s.runner.value.pending.None? then calls + [call] else calls)
  {
    if s.runner.Some? {
      EngineRunSnoc(s.runner.value.cfg, calls, call);
    }
  }

  /** The running engine has run on exactly those calls. */
  lemma {:induction false} RunnerRanOn(heatmap: HeatmapConfig, product: Product, actions: seq<Action>)
    requires heatmap.Valid()
    ensures RanOn(Run(heatmap, product, actions), SessionCalls(heatmap, product, actions))
  {
    if actions != [] {
      var before, a := actions[..|actions| - 1], actions[|actions| - 1];
      var s, calls := Run(heatmap, product, before), SessionCalls(heatmap, product, before);
      RunnerRanOn(heatmap, product, before);
      match a {
        case StartRunner => StartRanOn(s, calls);
        case Process(call) => ProcessRanOn(s, call, calls);
        case _ => StepRanOn(s, a, calls);
      }
    }
  }

  /**
   While the current session's engine has nothing left to publish, the peak in a drained
   browser is the largest quantity of all columns this engine ever reported, or zero.
   */
  lemma {:induction false} DrainedBrowserHoldsThePeak(
      heatmap: HeatmapConfig, product: Product, actions: seq<Action>, i: nat)
    requires heatmap.Valid()
    requires var s := Run(heatmap, product, actions);
      i < |s.connections| && s.runner.Some? && s.runner.value.session == s.session && s.runner.value.pending.None?
      && s.runner.value.engine.history.columns != [] && s.connections[i].wire == s.connections[i].queue == []
    ensures var s := Run(heatmap, product, actions);
      var r, c := s.runner.value, s.connections[i].client;
      && r.cfg.heatmap.Valid() && c.data.Some?
      && IsPeak(c.data.value.peak, ReportedColumns(r.cfg, SessionCalls(heatmap, product, actions)))
  {
    DrainedBrowsersShowTheEngine(heatmap, product, actions, i);
    RunnerRanOn(heatmap, product, actions);
    PeakIsLargestReported(
      Run(heatmap, product, actions).runner.value.cfg, SessionCalls(heatmap, product, actions));
  }

  // ---------- The status ----------

  datatype Told = Told(source: SourceStatus, detail: string, retry: nat)

  /** What the current session's runner said last about its source; a new session starts out connecting. */
  function LastTold(heatmap: HeatmapConfig, product: Product, actions: seq<Action>): Told
    requires heatmap.Valid()
  {
    if actions == [] then Told(SourceConnecting, "", 0)
    else
      var before, a := actions[..|actions| - 1], actions[|actions| - 1];
      var s, told := Run(heatmap, product, before), LastTold(heatmap, product, before);
      match a
      case SwitchProduct(next) => if next == s.selected then told else Told(SourceConnecting, "", 0)
      case PublishStatus(source, detail, retry) =>
        if s.runner.Some? && s.runner.value.session == s.session then Told(source, detail, retry) else told
      case _ => told
  }

  function ToldBy(h: HubState): Told {
    Told(h.source, h.detail, h.retry)
  }

  lemma {:induction false} PublishKeepsTold(s: System)
    requires SystemValid(s)
    ensures ToldBy(PublishNow(s).hub) == ToldBy(s.hub)
  {}

  lemma {:induction false} StepTold(s: System, a: Action)
    requires SystemValid(s)
    ensures ToldBy(Act(s, a).hub) == match a
      case SwitchProduct(next) => if next == s.selected then ToldBy(s.hub) else Told(SourceConnecting, "", 0)
      case PublishStatus(source, detail, retry) =>
        if s.runner.Some? && s.runner.value.session == s.session then Told(source, detail, retry) else ToldBy(s.hub)
      case _ => ToldBy(s.hub)
  {
    PublishKeepsTold(s);
  }

  lemma {:induction false} HubToldLast(heatmap: HeatmapConfig, product: Product, actions: seq<Action>)
    requires heatmap.Valid()
    ensures ToldBy(Run(heatmap, product, actions).hub) == LastTold(heatmap, product, actions)
  {
    if actions != [] {
      var before := actions[..|actions| - 1];
      HubToldLast(heatmap, product, before);
      StepTold(Run(heatmap, product, before), actions[|actions| - 1]);
    }
  }

  /**
   Once the hub has a window, a drained browser shows the book's status while the source
   was last said to be connected, and the source's own status otherwise.
   */
  lemma {:induction false} DrainedBrowserShowsTheStatus(
      heatmap: HeatmapConfig, product: Product, actions: seq<Action>, i: nat)
    requires heatmap.Valid() && i < |Run(heatmap, product, actions).connections|
    requires var s := Run(heatmap, product, actions);
      s.hub.ready && s.connections[i].wire == s.connections[i].queue == []
    ensures var c, told := Run(heatmap, product, actions).connections[i].client, LastTold(heatmap, product, actions);
      && c.source == Some(told.source) && c.detail == told.detail && c.retry == told.retry && c.book.Some?
      && c.status == if told.source == SourceConnected then Shown(FromBook(c.book.value))
                     else Shown(FromSource(told.source))
  {
    DrainedBrowsersShowTheHub(heatmap, product, actions, i);
    HubToldLast(heatmap, product, actions);
  }

  // ---------- The error ----------

  /** The error said last by the current session's runner, until its source connects again or the product changes. */
  function LastError(heatmap: HeatmapConfig, product: Product, actions: seq<Action>): Option<string>
    requires heatmap.Valid()
  {
    if actions == [] then None
    else
      var before, a := actions[..|actions| - 1], actions[|actions| - 1];
      var s, error := Run(heatmap, product, before), LastError(heatmap, product, before);
      var current := s.runner.Some? && s.runner.value.session == s.session;
      match a
      case SwitchProduct(next) => if next == s.selected then error else None
      case PublishStatus(source, _, _) =>
        if current && (source == SourceConnecting || source == SourceConnected) then None else error
      case PublishFailureText(text) => if current then Some(text) else error
      case _ => error
  }

  lemma {:induction false} PublishKeepsError(s: System)
    requires SystemValid(s)
    ensures PublishNow(s).hub.error == s.hub.error
  {}

  lemma {:induction false} StepError(s: System, a: Action)
    requires SystemValid(s)
    ensures var current := s.runner.Some? && s.runner.value.session == s.session;
      Act(s, a).hub.error == match a
        case SwitchProduct(next) => if next == s.selected then s.hub.error else None
        case PublishStatus(source, _, _) =>
          if current && (source == SourceConnecting || source == SourceConnected) then None else s.hub.error
        case PublishFailureText(text) => if current then Some(text) else s.hub.error
        case _ => s.hub.error
  {
    PublishKeepsError(s);
  }

  lemma {:induction false} HubKeepsLastError(heatmap: HeatmapConfig, product: Product, actions: seq<Action>)
    requires heatmap.Valid()
    ensures Run(heatmap, product, actions).hub.error == LastError(heatmap, product, actions)
  {
    if actions != [] {
      var before := actions[..|actions| - 1];
      HubKeepsLastError(heatmap, product, before);
      StepError(Run(heatmap, product, before), actions[|actions| - 1]);
    }
  }

  predicate NoErrors(messages: seq<Message>) {
    forall i :: 0 <= i < |messages| ==> !messages[i].Error?
  }

  lemma {:induction false} UpdatesAreNoErrors(updates: seq<ColumnUpdate>)
    ensures NoErrors(UpdateMessages(updates))
  {
    if updates != [] {
      UpdatesAreNoErrors(updates[..|updates| - 1]);
    }
  }

  /** A browser that subscribes late is told the last error at the end of its welcome, and no other. */
  lemma {:induction false} LateSubscriberIsToldTheError(
      heatmap: HeatmapConfig, product: Product, actions: seq<Action>, client: ClientState)
    requires heatmap.Valid()
    ensures var s := Act(Run(heatmap, product, actions), Subscribe(client));
      var welcome := s.connections[|s.connections| - 1].queue;
      match LastError(heatmap, product, actions)
      case None => NoErrors(welcome)
      case Some(text) =>
        welcome != [] && welcome[|welcome| - 1] == Error(text) && NoErrors(welcome[..|welcome| - 1])
  {
    HubKeepsLastError(heatmap, product, actions);
    WelcomeEndsWithError(Run(heatmap, product, actions).hub);
  }

  lemma {:induction false} WelcomeEndsWithError(h: HubState)
    ensures match h.error
      case None => NoErrors(WelcomeMessages(h))
      case Some(text) =>
        var welcome := WelcomeMessages(h);
        welcome != [] && welcome[|welcome| - 1] == Error(text) && NoErrors(welcome[..|welcome| - 1])
  {
    UpdatesAreNoErrors(AsUpdates(h.columns));
    var head := if h.hello.Some? then [Hello(h.hello.value)] else [];
    var before := if h.ready then head + UpdateMessages(AsUpdates(h.columns)) + [State(CurrentState(h))]
                  else [State(CurrentState(h))];
    assert NoErrors(before);
    assert WelcomeMessages(h) == before + ErrorMessages(h);
    if h.error.Some? {
      assert (before + [Error(h.error.value)])[..|before|] == before;
    } else {
      assert before + [] == before;
    }
  }

  // ---------- The metadata ----------

  /** The metadata names the hub's own first column, product and shape. */
  predicate Described(s: System) {
    && (s.hub.ready ==>
          && s.hub.hello.Some? && s.hub.columns != []
          && var hello, first := s.hub.hello.value, s.hub.columns[0];
             && hello.firstIndex == first.index && hello.start == first.column.timestamp
             && Some(hello.product) == s.hub.product && hello.timeBucket == s.heatmap.timeBucket
             && hello.priceBinCount == s.heatmap.priceBinCount && hello.maxColumns == s.heatmap.maxColumns)
    && (s.runner.Some? ==> s.runner.value.cfg.heatmap == s.heatmap)
  }

  lemma {:induction false} IndexedFirst(columns: Columns, next: nat)
    requires |columns| <= next && columns != []
    ensures Indexed(columns, next)[0] == StoredColumn(next - |columns|, columns[0])
  {
    if |columns| > 1 {
      IndexedFirst(columns[..|columns| - 1], next - 1);
    }
  }

  lemma {:induction false} PublishDescribes(s: System)
    requires SystemValid(s) && Described(s)
    ensures Described(PublishNow(s))
  {
    if s.runner.Some? && s.runner.value.pending.Some? && s.lastStarted == s.session {
      var r := s.runner.value;
      PublishTracks(s.hub, r);
      CaughtIsValid(s.hub, r);
      if r.engine.history.columns != [] {
        IndexedFirst(r.engine.history.columns, r.engine.nextIndex);
      }
    }
  }

  /** Nothing that the metadata speaks of changes. */
  predicate SameWindow(s: System, next: System) {
    && next.hub.ready == s.hub.ready && next.hub.hello == s.hub.hello && next.hub.columns == s.hub.columns
    && next.hub.product == s.hub.product && next.heatmap == s.heatmap
    && (next.runner.Some? ==> next.runner.value.cfg.heatmap == s.heatmap)
  }

  lemma {:induction false} QuietStep(s: System, a: Action)
    requires SystemValid(s) && Described(s) && !a.SwitchProduct? && !a.PublishPending?
    ensures SameWindow(s, Act(s, a))
  {}

  lemma {:induction false} StepDescribes(s: System, a: Action)
    requires SystemValid(s) && Described(s)
    ensures Described(Act(s, a)) && Act(s, a).heatmap == s.heatmap
  {
    if a.PublishPending? {
      PublishDescribes(s);
    } else if !a.SwitchProduct? {
      QuietStep(s, a);
    }
  }

  /** In every reachable state the metadata describes the window it announces. */
  lemma {:induction false} MetadataDescribesTheWindow(
      heatmap: HeatmapConfig, product: Product, actions: seq<Action>)
    requires heatmap.Valid()
    ensures Described(Run(heatmap, product, actions)) && Run(heatmap, product, actions).heatmap == heatmap
  {
    if actions != [] {
      var before := actions[..|actions| - 1];
      MetadataDescribesTheWindow(heatmap, product, before);
      StepDescribes(Run(heatmap, product, before), actions[|actions| - 1]);
    }
  }
}
