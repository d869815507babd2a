/**
 What a browser holds after it has handled what the hub sent: the hub's columns,
 position, peak and status.
 */
module ClientViews {
  import opened Wrappers
  import opened Truncation
  import opened HeatmapHistories
  import opened LiveHeatmapEngines
  import opened ColumnMirrors
  import opened LiveStreams
  import opened BrowserClients

  /** The hub's message as the browser reads it. */
  function Encode(m: Message): Frame {
    match m
    case Hello(h) =>
      HelloFrame(
        true, h.product, StreamConfig(h.priceBinSize, h.priceBinCount, h.maxColumns), h.firstIndex, 0, h.peak)
    case Column(u) => ColumnFrame(u.index, u.replacing, u.column)
    case State(s) => StateFrame(true, Shown(s.status), Some(s.source), Some(s.book), s.position, 1, s.detail, s.retry)
    case Reset(product) => ResetProductFrame(product)
    case Error(text) => ErrorFrame(text)
  }

  /** A browser that has received these messages. */
  function Drain(c: ClientState, messages: seq<Message>): Handled {
    if messages == [] then Fine(c)
    else
      var before := Drain(c, messages[..|messages| - 1]);
      if before.error.Some? then before else Handle(before.client, Encode(messages[|messages| - 1]))
  }

  lemma {:induction false} DrainSnoc(c: ClientState, messages: seq<Message>, m: Message)
    ensures Drain(c, messages + [m])
      == if Drain(c, messages).error.Some? then Drain(c, messages) else Handle(Drain(c, messages).client, Encode(m))
  {
    assert (messages + [m])[..|messages|] == messages;
  }

  lemma {:induction false} DrainConcat(c: ClientState, a: seq<Message>, b: seq<Message>)
    ensures Drain(c, a + b) == if Drain(c, a).error.Some? then Drain(c, a) else Drain(Drain(c, a).client, b)
  {
    if b == [] {
      assert a + b == a;
    } else {
      assert (a + b)[..|a + b| - 1] == a + b[..|b| - 1];
      DrainConcat(c, a, b[..|b| - 1]);
    }
  }

  lemma {:induction false} DrainOne(c: ClientState, m: Message)
    ensures Drain(c, [m]) == Handle(c, Encode(m))
  {
    assert [m][..0] == [];
  }

  // ---------- Columns ----------

  function Values(stored: seq<StoredColumn>): (columns: Columns)
    ensures |columns| == |stored|
  {
    if stored == [] then [] else Values(stored[..|stored| - 1]) + [stored[|stored| - 1].column]
  }

  lemma {:induction false} ValuesSnoc(stored: seq<StoredColumn>, c: StoredColumn)
    ensures Values(stored + [c]) == Values(stored) + [c.column]
  {
    assert (stored + [c])[..|stored|] == stored;
  }

  lemma {:induction false} ValuesConcat(a: seq<StoredColumn>, b: seq<StoredColumn>)
    ensures Values(a + b) == Values(a) + Values(b)
  {
    if b == [] {
      assert a + b == a;
    } else {
      assert (a + b)[..|a + b| - 1] == a + b[..|b| - 1];
      ValuesConcat(a, b[..|b| - 1]);
    }
  }

  lemma {:induction false} ValuesKeepLast(stored: seq<StoredColumn>, n: nat)
    ensures Values(KeepLast(stored, n)) == KeepLast(Values(stored), n)
  {
    if |stored| > n {
      var dropped, kept := stored[..|stored| - n], stored[|stored| - n..];
      assert stored == dropped + kept;
      ValuesConcat(dropped, kept);
    }
  }

  /** The browser shows the last columns of a mirrored history. */
  predicate Shows(c: ClientState, base: ClientData, stored: seq<StoredColumn>, next: int, peak: real) {
    && c.mode.LiveMode?
    && c.data == Some(base.(columns := KeepLast(Values(stored), base.config.maxColumns), peak := peak))
    && c.nextIndex == next
  }

  /** Everything a state message sets, except the position. */
  predicate SameStatus(a: ClientState, b: ClientState) {
    a.speed == b.speed && a.status == b.status && a.source == b.source && a.book == b.book && a.detail == b.detail
    && a.retry == b.retry
  }

  lemma {:induction false} OneUpdateShown(
      c: ClientState, base: ClientData, stored: seq<StoredColumn>, next: nat, peak: real, u: ColumnUpdate)
    requires Shows(c, base, stored, next, peak) && base.config.maxColumns > 0
    requires |u.column.bids| == base.config.priceBinCount && |u.column.asks| == base.config.priceBinCount
    requires if u.replacing then stored != [] && u.index + 1 == next else u.index == next
    ensures var h := Handle(c, Encode(Column(u)));
      var after := if u.replacing then stored[|stored| - 1 := StoredColumn(u.index, u.column)]
                   else stored + [StoredColumn(u.index, u.column)];
      var k := if u.replacing then next else next + 1;
      && h.error == None && Shows(h.client, base, after, k, ColumnPeak(peak, u.column))
      && SameStatus(h.client, c) && h.client.position == k
  {
    var max := base.config.maxColumns;
    if u.replacing {
      var front := stored[..|stored| - 1];
      assert stored == front + [stored[|stored| - 1]];
      assert stored[|stored| - 1 := StoredColumn(u.index, u.column)] == front + [StoredColumn(u.index, u.column)];
      ValuesSnoc(front, stored[|stored| - 1]);
      ValuesSnoc(front, StoredColumn(u.index, u.column));
      KeepLastSnoc(Values(front), stored[|stored| - 1].column, max);
      KeepLastSnoc(Values(front), u.column, max);
      ReplaceLast(KeepLast(Values(front), max - 1), stored[|stored| - 1].column, u.column);
    } else {
      ValuesSnoc(stored, StoredColumn(u.index, u.column));
      KeepLastAppend(Values(stored), u.column, max);
      ShiftIsKeepLast(KeepLast(Values(stored), max) + [u.column], max);
    }
  }

  lemma {:induction false} ReplaceLast<T>(front: seq<T>, a: T, b: T)
    ensures (front + [a])[|front + [a]| - 1 := b] == front + [b]
  {}

  lemma {:induction false} ShiftIsKeepLast<T>(pushed: seq<T>, max: nat)
    requires |pushed| <= max + 1
    ensures (if |pushed| > max then pushed[1..] else pushed) == KeepLast(pushed, max)
  {}

  predicate Fits(base: ClientData, updates: seq<ColumnUpdate>) {
    forall i :: 0 <= i < |updates| ==>
      |updates[i].column.bids| == base.config.priceBinCount && |updates[i].column.asks| == base.config.priceBinCount
  }

  /** A list of column messages moves the browser exactly as it moves a mirror. */
  lemma {:induction false} UpdatesShown(
      c: ClientState, base: ClientData, stored: seq<StoredColumn>, next: nat, peak: real, updates: seq<ColumnUpdate>)
    requires Shows(c, base, stored, next, peak) && base.config.maxColumns > 0 && Fits(base, updates)
    requires Mirror(stored, updates).matched && NextAfter(next, updates).Some?
    ensures var d := Drain(c, UpdateMessages(updates));
      && d.error == None && SameStatus(d.client, c)
      && Shows(
           d.client, base, Mirror(stored, updates).columns, NextAfter(next, updates).value, UpdatesPeak(peak, updates))
      && d.client.position == if updates == [] then c.position else d.client.nextIndex
  {
    if updates != [] {
      var front, u := updates[..|updates| - 1], updates[|updates| - 1];
      UpdatesShown(c, base, stored, next, peak, front);
      DrainSnoc(c, UpdateMessages(front), Column(u));
      OneUpdateShown(
        Drain(c, UpdateMessages(front)).client, base, Mirror(stored, front).columns, NextAfter(next, front).value,
        UpdatesPeak(peak, front), u);
    }
  }
}
