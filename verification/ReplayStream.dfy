/**
 Replay playback over a finished recording, the order in which its messages reach one
 browser, and what the browser then holds.
 */
module ReplayStreams {
  import opened Wrappers
  import opened VenueEvents
  import opened HeatmapHistories
  import opened BrowserClients

  datatype ReplayColumn = ReplayColumn(timestamp: int, column: HeatmapColumn)

  /** A loaded recording; its configuration is passed on to the browser as it was written. */
  datatype ReplayData = ReplayData(product: Product, config: StreamConfig, columns: seq<ReplayColumn>, peak: real)

  /** What loading checks: columns, in time order, each as wide as the configuration says. */
  predicate Loadable(data: ReplayData) {
    && data.config.priceBinCount > 0 && data.columns != []
    && (forall i :: 0 <= i < |data.columns| ==>
          |data.columns[i].column.bids| == data.config.priceBinCount
          && |data.columns[i].column.asks| == data.config.priceBinCount)
    && (forall i, j :: 0 <= i < |data.columns| && i < j < |data.columns| ==>
          data.columns[i].timestamp <= data.columns[j].timestamp)
  }

  datatype ReplayStatus = PausedReplay | PlayingReplay | CompleteReplay

  datatype Control = Play | Pause | Restart | SetSpeed(speed: int) | Unreadable

  datatype ControlResult = StateChanged | Restarted

  datatype PlaybackState = PlaybackState(status: ReplayStatus, position: nat, speed: int)

  const INITIAL_PLAYBACK := PlaybackState(PausedReplay, 0, 1)

  predicate ValidSpeed(speed: int) {
    speed == 1 || speed == 5 || speed == 20
  }

  predicate Rejected(control: Control) {
    control.Unreadable? || (control.SetSpeed? && !ValidSpeed(control.speed))
  }

  function AfterControl(p: PlaybackState, total: nat, control: Control): PlaybackState {
    if Rejected(control) then p
    else match control
      case Play => p.(status := PlayingReplay, position := if p.position == total then 0 else p.position)
      case Pause => p.(status := PausedReplay)
      case Restart => p.(status := PausedReplay, position := 0)
      case SetSpeed(speed) => p.(speed := speed)
      case Unreadable => p
  }

  predicate HasNext(p: PlaybackState, total: nat) {
    p.status.PlayingReplay? && p.position < total
  }

  function AfterTake(p: PlaybackState, total: nat): PlaybackState {
    if !HasNext(p, total) then p
    else p.(position := p.position + 1, status := if p.position + 1 == total then CompleteReplay else p.status)
  }

  /** Playing means there is a column left, complete means there is none. */
  predicate Consistent(p: PlaybackState, total: nat) {
    && p.position <= total && ValidSpeed(p.speed)
    && (p.status.PlayingReplay? ==> p.position < total)
    && (p.status.CompleteReplay? ==> p.position == total)
  }

  class ReplayPlayback {
    const replay: ReplayData
    var status: ReplayStatus
    var position: nat
    var speed: int

    constructor (replay: ReplayData)
      requires Loadable(replay)
      ensures this.replay == replay && State() == INITIAL_PLAYBACK && Valid()
    {
      this.replay := replay;
      status, position, speed := PausedReplay, 0, 1;
    }

    function State(): PlaybackState
      reads this
    {
      PlaybackState(status, position, speed)
    }

    ghost predicate Valid()
      reads this
    {
      Loadable(replay) && Consistent(State(), |replay.columns|)
    }

    method ApplyControl(control: Control) returns (r: Option<ControlResult>)
      requires Valid()
      modifies this
      ensures Valid() && State() == AfterControl(old(State()), |replay.columns|, control)
      ensures r == if Rejected(control) then None else Some(if control.Restart? then Restarted else StateChanged)
    {
      match control {
        case Play =>
          if position == |replay.columns| {
            position := 0;
          }
          status := PlayingReplay;
          return Some(StateChanged);
        case Pause =>
          status := PausedReplay;
          return Some(StateChanged);
        case Restart =>
          position := 0;
          status := PausedReplay;
          return Some(Restarted);
        case SetSpeed(requested) =>
          if requested != 1 && requested != 5 && requested != 20 {
            return None;
          }
          speed := requested;
          return Some(StateChanged);
        case Unreadable =>
          return None;
      }
    }

    method TakeNextColumn() returns (message: Option<Frame>)
      requires Valid()
      modifies this
      ensures Valid() && State() == AfterTake(old(State()), |replay.columns|)
      ensures message == if HasNext(old(State()), |replay.columns|)
                         then Some(ColumnMessage(replay, old(position))) else None
    {
      if status != PlayingReplay || position >= |replay.columns| {
        return None;
      }
      message := Some(ColumnMessage(replay, position));
      position := position + 1;
      if position == |replay.columns| {
        status := CompleteReplay;
      }
    }

    /** Milliseconds until the next column is due, in recorded time divided by the speed. */
    method IntervalToNext() returns (interval: int)
      requires Valid()
      ensures position == 0 || position == |replay.columns| ==> interval == 0
      ensures 0 < position < |replay.columns| ==>
        var elapsed := replay.columns[position].timestamp - replay.columns[position - 1].timestamp;
        && 0 <= elapsed && (interval == 0 <==> elapsed == 0)
        && elapsed < (interval + 1) * speed && (interval * speed <= elapsed || interval == 1)
    {
      if position == 0 || position >= |replay.columns| {
        return 0;
      }
      var difference := replay.columns[position].timestamp - replay.columns[position - 1].timestamp;
      var elapsed := if difference < 0 then 0 else difference;
      var scaled := elapsed / speed;
      if elapsed > 0 && scaled == 0 {
        return 1;
      }
      return scaled;
    }
  }

  // ---------- Messages ----------

  function HelloMessage(data: ReplayData): Frame {
    HelloFrame(false, data.product, data.config, 0, |data.columns|, data.peak)
  }

  function ShownStatus(status: ReplayStatus): Playback {
    match status case PausedReplay => Paused case PlayingReplay => Playing case CompleteReplay => Complete
  }

  function StateMessage(p: PlaybackState): Frame {
    StateFrame(false, ShownStatus(p.status), None, None, p.position, p.speed, "", 0)
  }

  function ColumnMessage(data: ReplayData, position: nat): Frame
    requires position < |data.columns|
  {
    ColumnFrame(position, false, data.columns[position].column)
  }

  /** A control is answered with an error, or with the new state after a reset if it restarted. */
  function ControlReply(p: PlaybackState, total: nat, control: Control): seq<Frame> {
    var next := AfterControl(p, total, control);
    if Rejected(control) then [ErrorFrame("Invalid replay control")]
    else (if control.Restart? then [ResetColumnsFrame] else []) + [StateMessage(next)]
  }

  /** When a column is due: the column, then the state if it was the last one. */
  function TakeReply(data: ReplayData, p: PlaybackState): seq<Frame> {
    var next := AfterTake(p, |data.columns|);
    (if HasNext(p, |data.columns|) then [ColumnMessage(data, p.position)] else [])
    + if next.status.CompleteReplay? then [StateMessage(next)] else []
  }

  // ---------- One browser on one connection ----------

  datatype ReplaySystem = ReplaySystem(playback: PlaybackState, wire: seq<Frame>, client: ClientState,
    error: Option<ClientError>)

  datatype Action = Command(control: Control) | NotText | ColumnDue | Receive

  /** Any browser state may open the connection; the server greets it with metadata and state. */
  function Connected(data: ReplayData, client: ClientState): ReplaySystem {
    ReplaySystem(INITIAL_PLAYBACK, [HelloMessage(data), StateMessage(INITIAL_PLAYBACK)], client, None)
  }

  function Act(data: ReplayData, s: ReplaySystem, a: Action): ReplaySystem {
    match a
    case Command(control) =>
      s.(playback := AfterControl(s.playback, |data.columns|, control),
         wire := s.wire + ControlReply(s.playback, |data.columns|, control))
    case NotText => s.(wire := s.wire + [ErrorFrame("Replay controls must be JSON text")])
    case ColumnDue =>
      if !s.playback.status.PlayingReplay? then s
      else s.(playback := AfterTake(s.playback, |data.columns|), wire := s.wire + TakeReply(data, s.playback))
    case Receive =>
      if s.wire == [] || s.error.Some? then s
      else
        var h := Handle(s.client, s.wire[0]);
        s.(wire := s.wire[1..], client := h.client, error := h.error)
  }

  function Run(data: ReplayData, client: ClientState, actions: seq<Action>): ReplaySystem {
    if actions == [] then Connected(data, client)
    else Act(data, Run(data, client, actions[..|actions| - 1]), actions[|actions| - 1])
  }

  function RecordedColumns(columns: seq<ReplayColumn>): (values: Columns)
    ensures |values| == |columns|
  {
    if columns == [] then [] else RecordedColumns(columns[..|columns| - 1]) + [columns[|columns| - 1].column]
  }

  lemma {:induction false} RecordedPrefix(columns: seq<ReplayColumn>, n: nat)
    requires n <= |columns|
    ensures RecordedColumns(columns)[..n] == RecordedColumns(columns[..n])
  {
    if n < |columns| {
      RecordedPrefix(columns[..|columns| - 1], n);
      assert columns[..|columns| - 1][..n] == columns[..n];
    } else {
      assert columns[..n] == columns;
    }
  }

  lemma {:induction false} NextRecorded(columns: seq<ReplayColumn>, n: nat)
    requires n < |columns|
    ensures RecordedColumns(columns[..n + 1]) == RecordedColumns(columns[..n]) + [columns[n].column]
  {
    assert columns[..n + 1][..n] == columns[..n];
  }

  /** The browser holds exactly the first `position` columns of the recording. */
  predicate Shows(c: ClientState, data: ReplayData, p: PlaybackState) {
    && p.position <= |data.columns|
    && c.mode.ReplayMode?
    && c.data == Some(ClientData(
         data.product, data.config, RecordedColumns(data.columns[..p.position]), data.peak, Some(|data.columns|)))
    && c.position == p.position && c.speed == p.speed && c.status == ShownStatus(p.status)
  }

  lemma {:induction false} HandleAllSnoc(c: ClientState, frames: seq<Frame>, f: Frame)
    ensures HandleAll(c, frames + [f])
      == if HandleAll(c, frames).error.Some? then HandleAll(c, frames) else Handle(HandleAll(c, frames).client, f)
  {
    assert (frames + [f])[..|frames|] == frames;
  }

  lemma {:induction false} HandleAllConcat(c: ClientState, a: seq<Frame>, b: seq<Frame>)
    ensures HandleAll(c, a + b)
      == if HandleAll(c, a).error.Some? then HandleAll(c, a) else HandleAll(HandleAll(c, a).client, b)
  {
    if b == [] {
      assert a + b == a;
    } else {
      assert (a + b)[..|a + b| - 1] == a + b[..|b| - 1];
      HandleAllConcat(c, a, b[..|b| - 1]);
    }
  }

  lemma {:induction false} HandleOne(c: ClientState, f: Frame)
    ensures HandleAll(c, [f]) == Handle(c, f)
  {
    assert [f][..0] == [];
  }

  /** The browser accepts the metadata exactly when the recorded bin size is positive, which loading does not check. */
  lemma {:induction false} WelcomeShown(c: ClientState, data: ReplayData)
    requires Loadable(data)
    ensures var h := HandleAll(c, Connected(data, c).wire);
      if data.config.priceBinSize > 0.0 then h.error == None && Shows(h.client, data, INITIAL_PLAYBACK)
      else h == Handled(c, Some(InvalidMetadata))
  {
    HandleOne(c, HelloMessage(data));
    HandleAllSnoc(c, [HelloMessage(data)], StateMessage(INITIAL_PLAYBACK));
    assert [HelloMessage(data)] + [StateMessage(INITIAL_PLAYBACK)] == Connected(data, c).wire;
    assert data.columns[..0] == [];
  }

  /** A state message of the same position leaves the columns alone; an earlier position rewinds them. */
  lemma {:induction false} StateShown(c: ClientState, data: ReplayData, p: PlaybackState, next: PlaybackState)
    requires Shows(c, data, p) && (next.position == p.position || next.position == 0)
    ensures HandleAll(c, [StateMessage(next)]).error == None
    ensures Shows(HandleAll(c, [StateMessage(next)]).client, data, next)
  {
    HandleOne(c, StateMessage(next));
    assert data.columns[..0] == [];
    assert RecordedColumns(data.columns[..p.position])[..0] == [];
  }

  lemma {:induction false} ControlShown(c: ClientState, data: ReplayData, p: PlaybackState, control: Control)
    requires Loadable(data) && Consistent(p, |data.columns|) && Shows(c, data, p)
    ensures var h := HandleAll(c, ControlReply(p, |data.columns|, control));
      h.error == None && Shows(h.client, data, AfterControl(p, |data.columns|, control))
  {
    var next := AfterControl(p, |data.columns|, control);
    if Rejected(control) {
      HandleOne(c, ErrorFrame("Invalid replay control"));
    } else if control.Restart? {
      HandleOne(c, ResetColumnsFrame);
      HandleAllConcat(c, [ResetColumnsFrame], [StateMessage(next)]);
      assert data.columns[..0] == [];
      StateShown(HandleAll(c, [ResetColumnsFrame]).client, data, p.(position := 0), next);
    } else {
      assert [] + [StateMessage(next)] == [StateMessage(next)];
      StateShown(c, data, p, next);
    }
  }

  lemma {:induction false} TakeShown(c: ClientState, data: ReplayData, p: PlaybackState)
    requires Loadable(data) && Consistent(p, |data.columns|) && Shows(c, data, p) && p.status.PlayingReplay?
    ensures var h := HandleAll(c, TakeReply(data, p));
      h.error == None && Shows(h.client, data, AfterTake(p, |data.columns|))
  {
    var next := AfterTake(p, |data.columns|);
    var column := ColumnMessage(data, p.position);
    HandleOne(c, column);
    NextRecorded(data.columns, p.position);
    var c1 := HandleAll(c, [column]).client;
    assert Shows(c1, data, p.(position := p.position + 1));
    if next.status.CompleteReplay? {
      HandleAllConcat(c, [column], [StateMessage(next)]);
      StateShown(c1, data, p.(position := p.position + 1), next);
    } else {
      assert [column] + [] == [column];
    }
  }

  predicate InStep(data: ReplayData, s: ReplaySystem) {
    && Consistent(s.playback, |data.columns|) && s.error == None
    && HandleAll(s.client, s.wire).error == None
    && Shows(HandleAll(s.client, s.wire).client, data, s.playback)
  }

  /** What the server appends moves the drained browser on from where it was. */
  lemma {:induction false} RepliesKeepInStep(data: ReplayData, s: ReplaySystem, next: PlaybackState, reply: seq<Frame>)
    requires InStep(data, s) && Consistent(next, |data.columns|)
    requires var h := HandleAll(HandleAll(s.client, s.wire).client, reply);
      h.error == None && Shows(h.client, data, next)
    ensures InStep(data, s.(playback := next, wire := s.wire + reply))
  {
    HandleAllConcat(s.client, s.wire, reply);
  }

  lemma {:induction false} ReceiveKeepsInStep(data: ReplayData, s: ReplaySystem)
    requires InStep(data, s) && s.wire != []
    ensures InStep(data, Act(data, s, Receive))
  {
    assert s.wire == [s.wire[0]] + s.wire[1..];
    HandleAllConcat(s.client, [s.wire[0]], s.wire[1..]);
    HandleOne(s.client, s.wire[0]);
  }

  lemma {:induction false} ConsistentAfter(p: PlaybackState, total: nat, control: Control)
    requires Consistent(p, total) && total > 0
    ensures Consistent(AfterControl(p, total, control), total) && Consistent(AfterTake(p, total), total)
  {}

  lemma {:induction false} ActKeepsInStep(data: ReplayData, s: ReplaySystem, a: Action)
    requires Loadable(data) && InStep(data, s)
    ensures InStep(data, Act(data, s, a))
  {
    var c := HandleAll(s.client, s.wire).client;
    match a {
      case Command(control) =>
        ConsistentAfter(s.playback, |data.columns|, control);
        ControlShown(c, data, s.playback, control);
        RepliesKeepInStep(
          data, s, AfterControl(s.playback, |data.columns|, control), ControlReply(s.playback, |data.columns|,
            control));
      case NotText =>
        HandleOne(c, ErrorFrame("Replay controls must be JSON text"));
        RepliesKeepInStep(data, s, s.playback, [ErrorFrame("Replay controls must be JSON text")]);
      case ColumnDue =>
        if s.playback.status.PlayingReplay? {
          ConsistentAfter(s.playback, |data.columns|, Pause);
          TakeShown(c, data, s.playback);
          RepliesKeepInStep(data, s, AfterTake(s.playback, |data.columns|), TakeReply(data, s.playback));
        }
      case Receive =>
        if s.wire != [] {
          ReceiveKeepsInStep(data, s);
        }
    }
  }

  /**
   For any run of valid and invalid controls, due columns and reads, a browser that has
   handled everything holds exactly the first `position` columns of the recording, and
   never reaches its sequence error.
   */
  lemma {:induction false} ReplayedPrefixIsShown(data: ReplayData, client: ClientState, actions: seq<Action>)
    requires Loadable(data) && data.config.priceBinSize > 0.0
    ensures InStep(data, Run(data, client, actions))
    ensures var s := Run(data, client, actions);
      s.wire == [] ==>
        && s.client.data.Some?
        && s.client.data.value.columns == RecordedColumns(data.columns)[..s.playback.position]
  {
    if actions == [] {
      WelcomeShown(client, data);
    } else {
      ReplayedPrefixIsShown(data, client, actions[..|actions| - 1]);
      ActKeepsInStep(data, Run(data, client, actions[..|actions| - 1]), actions[|actions| - 1]);
    }
    RecordedPrefix(data.columns, Run(data, client, actions).playback.position);
  }

  /** Playing again after completion sends one state message and no reset; that message alone empties the browser. */
  lemma {:induction false} PlayAfterCompletionRewinds(data: ReplayData, c: ClientState, p: PlaybackState)
    requires Loadable(data) && p.status.CompleteReplay? && Consistent(p, |data.columns|) && Shows(c, data, p)
    ensures ControlReply(p, |data.columns|, Play) == [StateMessage(PlaybackState(PlayingReplay, 0, p.speed))]
    ensures var after := HandleAll(c, ControlReply(p, |data.columns|, Play)).client;
      after.data.Some? && after.data.value.columns == []
    ensures c.data.value.columns == RecordedColumns(data.columns)
  {
    ControlShown(c, data, p, Play);
    assert data.columns[..|data.columns|] == data.columns && data.columns[..0] == [];
  }

  // ---------- What the controls of a run amount to ----------

  /** The speed asked for last among those there are. */
  function LastSpeed(actions: seq<Action>): int {
    if actions == [] then 1
    else
      var a := actions[|actions| - 1];
      if a.Command? && a.control.SetSpeed? && a.control.speed in {1, 5, 20} then a.control.speed
      else LastSpeed(actions[..|actions| - 1])
  }

  /** Whether the last of all plays, pauses and restarts was a play. */
  predicate Started(actions: seq<Action>) {
    && actions != []
    && var a := actions[|actions| - 1];
       if a == Command(Play) then true
       else if a == Command(Pause) || a == Command(Restart) then false
       else Started(actions[..|actions| - 1])
  }

  /** The columns that came due since the last rewind: a restart, or a play when all had come. */
  function SinceRewind(total: nat, actions: seq<Action>): nat {
    if actions == [] then 0
    else
      var before, a := actions[..|actions| - 1], actions[|actions| - 1];
      var n := SinceRewind(total, before);
      if a == Command(Restart) || (a == Command(Play) && n == total) then 0
      else if a == ColumnDue && Started(before) && n < total then n + 1
      else n
  }

  /**
   After any run, whatever the browser does: the speed is the last valid one asked for,
   the position counts the columns since the last rewind, and playback is paused until
   it is started, playing while columns are left, and complete once there are none.
   */
  lemma {:induction false} PlaybackFollowsControls(data: ReplayData, client: ClientState, actions: seq<Action>)
    requires Loadable(data)
    ensures var p, total := Run(data, client, actions).playback, |data.columns|;
      && p.speed == LastSpeed(actions) && p.position == SinceRewind(total, actions) <= total
      && p.status == if !Started(actions) then PausedReplay
                     else if SinceRewind(total, actions) < total then PlayingReplay else CompleteReplay
  {
    if actions != [] {
      PlaybackFollowsControls(data, client, actions[..|actions| - 1]);
    }
  }

  /** A restart is answered by a reset, which alone empties the browser, and then by the state. */
  lemma {:induction false} RestartResetsFirst(data: ReplayData, c: ClientState, p: PlaybackState)
    requires Shows(c, data, p)
    ensures var reply := ControlReply(p, |data.columns|, Restart);
      && |reply| == 2 && reply[1] == StateMessage(PlaybackState(PausedReplay, 0, p.speed))
      && var h := HandleAll(c, reply[..1]);
         h.error == None && h.client.data.Some? && h.client.data.value.columns == [] && h.client.position == 0
  {
    HandleOne(c, ResetColumnsFrame);
    assert ControlReply(p, |data.columns|, Restart)[..1] == [ResetColumnsFrame];
  }
}
