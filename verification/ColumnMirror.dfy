/**
 What the engine's numbered updates are for: applying them to a copy of the old
 window gives the new window, index by index.
 */
module ColumnMirrors {
  import opened Wrappers
  import opened OrderBooks
  import opened VenueEvents
  import opened Truncation
  import opened SequenceTrackers
  import opened BookReconstructors
  import opened HeatmapHistories
  import opened LiveHeatmapEngines

  datatype StoredColumn = StoredColumn(index: nat, column: HeatmapColumn)

  /** A copy after a list of updates; `matched` is false once a replacement names another column. */
  datatype Mirrored = Mirrored(columns: seq<StoredColumn>, matched: bool)

  function Mirror(columns: seq<StoredColumn>, updates: seq<ColumnUpdate>): Mirrored {
    if updates == [] then Mirrored(columns, true)
    else
      var u := updates[|updates| - 1];
      var m := Mirror(columns, updates[..|updates| - 1]);
      if !m.matched then m
      else if !u.replacing then Mirrored(m.columns + [StoredColumn(u.index, u.column)], true)
      else if m.columns == [] || m.columns[|m.columns| - 1].index != u.index then Mirrored(m.columns, false)
      else Mirrored(m.columns[|m.columns| - 1 := StoredColumn(u.index, u.column)], true)
  }

  /** A window whose last column has index `next - 1`. */
  function Indexed(columns: Columns, next: nat): (stored: seq<StoredColumn>)
    requires |columns| <= next
    ensures |stored| == |columns|
  {
    if columns == [] then []
    else Indexed(columns[..|columns| - 1], next - 1) + [StoredColumn(next - 1, columns[|columns| - 1])]
  }

  lemma {:induction false} IndexedSnoc(a: Columns, c: HeatmapColumn, next: nat)
    requires |a| <= next
    ensures Indexed(a + [c], next + 1) == Indexed(a, next) + [StoredColumn(next, c)]
  {
    assert (a + [c])[..|a|] == a;
  }

  lemma {:induction false} IndexedConcat(a: Columns, b: Columns, next: nat)
    requires |a| <= next
    ensures Indexed(a + b, next + |b|) == Indexed(a, next) + Indexed(b, next + |b|)
  {
    if b == [] {
      assert a + b == a;
    } else {
      var front, c := b[..|b| - 1], b[|b| - 1];
      IndexedConcat(a, front, next);
      IndexedSnoc(a + front, c, next + |front|);
      assert a + b == a + front + [c];
    }
  }

  lemma {:induction false} IndexedKeepLast(a: Columns, next: nat, n: nat)
    requires |a| <= next
    ensures KeepLast(Indexed(a, next), n) == Indexed(KeepLast(a, n), next)
  {
    if |a| > n {
      var dropped, kept := a[..|a| - n], a[|a| - n..];
      assert a == dropped + kept;
      IndexedConcat(dropped, kept, next - n);
    }
  }

  lemma {:induction false} MirrorNumbered(columns: seq<StoredColumn>, added: Columns, next: nat)
    ensures Mirror(columns, Numbered(added, next)) == Mirrored(columns + Indexed(added, next + |added|), true)
  {
    if added != [] {
      var front := added[..|added| - 1];
      MirrorNumbered(columns, front, next);
      assert Numbered(added, next)[..|added| - 1] == Numbered(front, next);
    }
  }

  function UpdatesPeak(peak: real, updates: seq<ColumnUpdate>): real {
    if updates == [] then peak
    else ColumnPeak(UpdatesPeak(peak, updates[..|updates| - 1]), updates[|updates| - 1].column)
  }

  lemma {:induction false} NumberedPeak(peak: real, added: Columns, next: nat)
    ensures UpdatesPeak(peak, Numbered(added, next)) == ColumnsPeak(peak, added)
  {
    if added != [] {
      var front := added[..|added| - 1];
      NumberedPeak(peak, front, next);
      assert Numbered(added, next)[..|added| - 1] == Numbered(front, next);
    }
  }

  /** The next free index when the updates continue a window that ends before `next`; `None` if they do not. */
  function NextAfter(next: nat, updates: seq<ColumnUpdate>): Option<nat> {
    if updates == [] then Some(next)
    else
      var u := updates[|updates| - 1];
      match NextAfter(next, updates[..|updates| - 1])
      case None => None
      case Some(k) =>
        if u.replacing then if u.index + 1 == k then Some(k) else None
        else if u.index == k then Some(k + 1) else None
  }

  lemma {:induction false} NumberedContinues(added: Columns, next: nat)
    ensures NextAfter(next, Numbered(added, next)) == Some(next + |added|)
  {
    if added != [] {
      var front := added[..|added| - 1];
      NumberedContinues(front, next);
      assert Numbered(added, next)[..|added| - 1] == Numbered(front, next);
    }
  }

  // ---------- The peak dominates the window ----------

  lemma {:induction false} PeakOfMax(p: real, r: real, quantities: seq<real>)
    ensures PeakOf(Max(p, r), quantities) == Max(PeakOf(p, quantities), r)
  {
    if quantities != [] {
      PeakOfMax(p, r, quantities[..|quantities| - 1]);
    }
  }

  lemma {:induction false} ColumnPeakMax(p: real, r: real, c: HeatmapColumn)
    ensures ColumnPeak(Max(p, r), c) == Max(ColumnPeak(p, c), r)
  {
    PeakOfMax(p, r, c.bids);
    PeakOfMax(PeakOf(p, c.bids), r, c.asks);
  }

  lemma {:induction false} ColumnsPeakMax(p: real, r: real, columns: Columns)
    ensures ColumnsPeak(Max(p, r), columns) == Max(ColumnsPeak(p, columns), r)
  {
    if columns != [] {
      ColumnsPeakMax(p, r, columns[..|columns| - 1]);
      ColumnPeakMax(ColumnsPeak(p, columns[..|columns| - 1]), r, columns[|columns| - 1]);
    }
  }

  /** No quantity of the columns exceeds the peak. */
  predicate Dominated(peak: real, columns: Columns) {
    ColumnsPeak(peak, columns) == peak
  }

  lemma {:induction false} RaisedPeak(p: real, columns: Columns)
    ensures ColumnsPeak(p, columns) >= p && Dominated(ColumnsPeak(p, columns), columns)
  {
    ColumnsPeakMax(p, p, columns);
    ColumnsPeakMax(p, ColumnsPeak(p, columns), columns);
  }

  lemma {:induction false} HigherPeakDominates(p: real, q: real, columns: Columns)
    requires q <= p && Dominated(q, columns)
    ensures Dominated(p, columns)
  {
    ColumnsPeakMax(q, p, columns);
  }

  lemma {:induction false} ColumnsPeakConcat(p: real, a: Columns, b: Columns)
    ensures ColumnsPeak(p, a + b) == ColumnsPeak(ColumnsPeak(p, a), b)
  {
    if b == [] {
      assert a + b == a;
    } else {
      assert (a + b)[..|a + b| - 1] == a + b[..|b| - 1];
      ColumnsPeakConcat(p, a, b[..|b| - 1]);
    }
  }

  lemma {:induction false} DominatedConcat(p: real, a: Columns, b: Columns)
    ensures Dominated(p, a + b) <==> Dominated(p, a) && Dominated(p, b)
  {
    ColumnsPeakConcat(p, a, b);
    RaisedPeak(p, a);
    RaisedPeak(ColumnsPeak(p, a), b);
  }

  lemma {:induction false} DominatedSuffix(p: real, columns: Columns, n: nat)
    requires Dominated(p, columns)
    ensures Dominated(p, KeepLast(columns, n))
  {
    if |columns| > n {
      DominatedConcat(p, columns[..|columns| - n], columns[|columns| - n..]);
      assert columns == columns[..|columns| - n] + columns[|columns| - n..];
    }
  }

  lemma {:induction false} DominatedWindow(p: real, w: Columns, added: Columns, n: nat)
    requires Dominated(p, w)
    ensures Dominated(ColumnsPeak(p, added), KeepLast(w + added, n))
  {
    RaisedPeak(p, added);
    HigherPeakDominates(ColumnsPeak(p, added), p, w);
    DominatedConcat(ColumnsPeak(p, added), w, added);
    DominatedSuffix(ColumnsPeak(p, added), w + added, n);
  }

  // ---------- The engine's invariant ----------

  /** All positions below `n`: with these as marks, spacing asks for increasing bucket multiples only. */
  function Below(n: nat): (all: set<nat>)
    ensures forall i: nat :: i in all <==> i < n
  {
    if n == 0 then {} else Below(n - 1) + {n - 1}
  }

  predicate FullWidthColumn(cfg: HeatmapConfig, c: HeatmapColumn) {
    |c.bids| == cfg.priceBinCount && |c.asks| == cfg.priceBinCount
  }

  predicate FullWidth(cfg: HeatmapConfig, columns: Columns) {
    forall i :: 0 <= i < |columns| ==> FullWidthColumn(cfg, columns[i])
  }

  predicate FullWidthUpdates(cfg: HeatmapConfig, updates: seq<ColumnUpdate>) {
    forall i :: 0 <= i < |updates| ==> FullWidthColumn(cfg, updates[i].column)
  }

  lemma {:induction false} NumberedFullWidth(cfg: HeatmapConfig, columns: Columns, next: nat)
    requires FullWidth(cfg, columns)
    ensures FullWidthUpdates(cfg, Numbered(columns, next))
  {
    if columns != [] {
      NumberedFullWidth(cfg, columns[..|columns| - 1], next);
    }
  }

  predicate WellFormed(cfg: HeatmapConfig, h: HistoryState)
    requires cfg.Valid()
  {
    && Chronological(cfg, h)
    && |h.columns| <= cfg.maxColumns
    && Spaced(h.columns, cfg.timeBucket, Below(|h.columns|))
    && FullWidth(cfg, h.columns)
    && (h.columns != [] ==> h.resolved.Some?)
  }

  /** Every column of the window has been emitted under consecutive indices. */
  predicate Emitting(cfg: EngineConfig, s: EngineState) {
    && cfg.heatmap.Valid() && WellFormed(cfg.heatmap, s.history)
    && |s.history.columns| <= s.nextIndex
    && s.lastEmitted == LastTime(None, s.history.columns)
    && Dominated(s.peak, s.history.columns)
  }

  /** What the updates make of a copy of a window, trimmed to `max`. */
  function MirrorWindow(before: Columns, index: nat, updates: seq<ColumnUpdate>, max: nat): Option<seq<StoredColumn>>
    requires |before| <= index
  {
    var m := Mirror(Indexed(before, index), updates);
    if m.matched then Some(KeepLast(m.columns, max)) else None
  }

  /** One call's effect on a copy of the window, on the peak and on what the metadata reports. */
  predicate Emits(cfg: EngineConfig, s: EngineState, next: EngineState, updates: seq<ColumnUpdate>)
    requires Emitting(cfg, s)
  {
    && Emitting(cfg, next)
    && MirrorWindow(s.history.columns, s.nextIndex, updates, cfg.heatmap.maxColumns)
         == Some(Indexed(next.history.columns, next.nextIndex))
    && NextAfter(s.nextIndex, updates) == Some(next.nextIndex)
    && next.peak == UpdatesPeak(s.peak, updates)
    && (s.history.columns != [] ==> next.history.columns != [] && next.history.resolved == s.history.resolved)
    && FullWidthUpdates(cfg.heatmap, updates)
  }

  lemma {:induction false} InitiallyEmitting(cfg: EngineConfig)
    requires cfg.heatmap.Valid()
    ensures Emitting(cfg, InitialEngine(cfg))
  {}

  // ---------- Sampling ----------

  lemma {:induction false} CarryForwardExtends(cfg: HeatmapConfig, h: Columns, until: int)
    requires h != [] && cfg.Valid() && FullWidth(cfg, h)
    ensures h <= CarryForward(h, until, cfg.timeBucket) && FullWidth(cfg, CarryForward(h, until, cfg.timeBucket))
    decreases until - h[|h| - 1].timestamp
  {
    var last := h[|h| - 1];
    if last.timestamp + cfg.timeBucket < until {
      CarryForwardExtends(cfg, h + [Copy(last, last.timestamp + cfg.timeBucket)], until);
    }
  }

  lemma {:induction false} SpacedIsIncreasing(h: Columns, bucket: int, marked: set<nat>, i: nat, j: nat)
    requires bucket > 0 && Spaced(h, bucket, marked) && i < j < |h|
    ensures h[i].timestamp < h[j].timestamp
    decreases j
  {
    assert Follows(h[j - 1], h[j], bucket, j in marked);
    if i < j - 1 {
      SpacedIsIncreasing(h, bucket, marked, i, j - 1);
    }
  }

  lemma {:induction false} NothingNewer(previous: Columns, time: int)
    requires forall i :: 0 <= i < |previous| ==> previous[i].timestamp <= time
    ensures Newer(previous, Some(time)) == []
  {
    if previous != [] {
      NothingNewer(previous[..|previous| - 1], time);
    }
  }

  lemma {:induction false} AllNewer(later: Columns, time: int)
    requires forall i :: 0 <= i < |later| ==> later[i].timestamp > time
    ensures Newer(later, Some(time)) == later
  {
    if later != [] {
      AllNewer(later[..|later| - 1], time);
    }
  }

  lemma {:induction false} NewerSnoc(columns: Columns, c: HeatmapColumn, time: int)
    ensures Newer(columns + [c], Some(time)) == Newer(columns, Some(time)) + if c.timestamp > time then [c] else []
  {
    assert (columns + [c])[..|columns|] == columns;
  }

  lemma {:induction false} NewerConcat(a: Columns, b: Columns, time: int)
    ensures Newer(a + b, Some(time)) == Newer(a, Some(time)) + Newer(b, Some(time))
  {
    if b == [] {
      assert a + b == a;
    } else {
      var front, c := b[..|b| - 1], b[|b| - 1];
      NewerConcat(a, front, time);
      NewerSnoc(a + front, c, time);
      assert a + b == a + front + [c];
    }
  }

  lemma {:induction false} NewerOfSplit(previous: Columns, later: Columns, time: int)
    requires forall i :: 0 <= i < |previous| ==> previous[i].timestamp <= time
    requires forall i :: 0 <= i < |later| ==> later[i].timestamp > time
    ensures Newer(previous + later, Some(time)) == later
  {
    NewerConcat(previous, later, time);
    NothingNewer(previous, time);
    AllNewer(later, time);
  }

  lemma {:induction false} KeepLastSplit<T>(a: seq<T>, b: seq<T>, n: nat)
    ensures KeepLast(a + b, n) == KeepLast(a, if |b| >= n then 0 else n - |b|) + KeepLast(b, n)
    ensures KeepLast(a + KeepLast(b, n), n) == KeepLast(a + b, n)
  {}

  /** The columns a later sample adds behind a window: everything carried forward, then the new one. */
  lemma {:induction false} ExtendAdds(cfg: HeatmapConfig, h: HistoryState, c: HeatmapColumn)
    requires cfg.Valid() && WellFormed(cfg, h) && h.columns != [] && FullWidthColumn(cfg, c)
    requires Aligned(c.timestamp, cfg.timeBucket) && h.columns[|h.columns| - 1].timestamp < c.timestamp
    ensures var all := Extend(h.columns, h.carryForward, c, cfg.timeBucket);
      && h.columns < all && all[|all| - 1] == c && FullWidth(cfg, all)
      && Spaced(all, cfg.timeBucket, Below(|all|))
  {
    ExtendIsSpaced(h.columns, h.carryForward, c, cfg.timeBucket, Below(|h.columns|));
    if h.carryForward {
      CarryForwardExtends(cfg, h.columns, c.timestamp);
    }
  }

  lemma {:induction false} SpacedSuffix(all: Columns, bucket: int, n: nat)
    requires bucket > 0 && Spaced(all, bucket, Below(|all|))
    ensures Spaced(KeepLast(all, n), bucket, Below(|KeepLast(all, n)|))
  {
    SuffixIsSpaced(all, n, bucket, Below(|all|));
  }

  lemma {:induction false} AddedTimes(previous: Columns, added: Columns, bucket: int)
    requires bucket > 0 && previous != [] && Spaced(previous + added, bucket, Below(|previous + added|))
    ensures forall i :: 0 <= i < |previous| ==> previous[i].timestamp <= previous[|previous| - 1].timestamp
    ensures forall i :: 0 <= i < |added| ==> added[i].timestamp > previous[|previous| - 1].timestamp
  {
    var all := previous + added;
    var last := |previous| - 1;
    forall i | 0 <= i < |previous| ensures previous[i].timestamp <= previous[last].timestamp {
      if i < last {
        SpacedIsIncreasing(all, bucket, Below(|all|), i, last);
      }
    }
    forall i | 0 <= i < |added| ensures added[i].timestamp > previous[last].timestamp {
      SpacedIsIncreasing(all, bucket, Below(|all|), last, |previous| + i);
      assert all[|previous| + i] == added[i];
    }
  }

  /** Only the added columns are newer than the old end, so only they are collected. */
  lemma {:induction false} NewerAfterSample(previous: Columns, added: Columns, bucket: int, n: nat)
    requires bucket > 0 && previous != [] && Spaced(previous + added, bucket, Below(|previous + added|))
    ensures Newer(KeepLast(previous + added, n), Some(previous[|previous| - 1].timestamp)) == KeepLast(added, n)
  {
    AddedTimes(previous, added, bucket);
    KeepLastSplit(previous, added, n);
    NewerOfSplit(
      KeepLast(previous, if |added| >= n then 0 else n - |added|), KeepLast(added, n),
        previous[|previous| - 1].timestamp);
  }

  /** Appending what was collected and trimming gives the new window. */
  lemma {:induction false} MirrorAppends(previous: Columns, added: Columns, next: nat, n: nat)
    requires |previous| <= next && |added| <= n
    ensures |KeepLast(previous + added, n)| <= next + |added|
    ensures MirrorWindow(previous, next, Numbered(added, next), n)
      == Some(Indexed(KeepLast(previous + added, n), next + |added|))
  {
    MirrorNumbered(Indexed(previous, next), added, next);
    IndexedConcat(previous, added, next);
    IndexedKeepLast(previous + added, next + |added|, n);
  }

  function WithHistory(s: EngineState, h: HistoryState): EngineState {
    s.(history := h, status := LiveNow)
  }

  lemma {:induction false} ReplacedColumnEmits(cfg: EngineConfig, s: EngineState, h: HistoryState, c: HeatmapColumn)
    requires Emitting(cfg, s) && s.history.columns != [] && WellFormed(cfg.heatmap, h)
    requires h.columns == s.history.columns[|s.history.columns| - 1 := c] && h.resolved == s.history.resolved
    requires c.timestamp == s.history.columns[|s.history.columns| - 1].timestamp
    ensures CanReplace(WithHistory(s, h))
    ensures Emits(cfg, s, AfterCollecting(WithHistory(s, h)), Collected(WithHistory(s, h)))
  {
    var sampled := WithHistory(s, h);
    var before := Indexed(s.history.columns, s.nextIndex);
    var u := ColumnUpdate(s.nextIndex - 1, true, c);
    assert Collected(sampled) == [u] && [u][..0] == [];
    assert h.columns[|h.columns| - 1] == c;
    assert Mirror(before, [u]) == Mirrored(before[|before| - 1 := StoredColumn(u.index, c)], true);
    assert before[|before| - 1 := StoredColumn(u.index, c)] == Indexed(h.columns, s.nextIndex);
    assert UpdatesPeak(s.peak, [u]) == ColumnPeak(s.peak, c);
    assert NextAfter(s.nextIndex, [u]) == Some(s.nextIndex);
    ReplacedDominated(s.peak, s.history.columns, c);
  }

  lemma {:induction false} ReplacedDominated(p: real, w: Columns, c: HeatmapColumn)
    requires w != [] && Dominated(p, w)
    ensures Dominated(ColumnPeak(p, c), w[|w| - 1 := c])
  {
    var front := w[..|w| - 1];
    assert w == front + [w[|w| - 1]] && w[|w| - 1 := c] == front + [c];
    DominatedConcat(p, front, [w[|w| - 1]]);
    assert [c][..0] == [];
    assert ColumnsPeak(p, [c]) == ColumnPeak(p, c);
    RaisedPeak(p, [c]);
    HigherPeakDominates(ColumnPeak(p, c), p, front);
    DominatedConcat(ColumnPeak(p, c), front, [c]);
  }

  /** The kept part of the added columns is a non-empty suffix of the new window. */
  lemma {:induction false} KeptIsSuffix(w: Columns, added: Columns, max: nat)
    requires added != [] && max > 0
    ensures var kept, window := KeepLast(added, max), KeepLast(w + added, max);
      && kept != [] && |kept| <= |window| && kept == window[|window| - |kept|..]
      && kept[|kept| - 1] == window[|window| - 1] == added[|added| - 1]
  {
    KeepLastSplit(w, added, max);
  }

  lemma {:induction false} AppendedColumnsEmit(cfg: EngineConfig, s: EngineState, h: HistoryState, added: Columns)
    requires Emitting(cfg, s) && s.history.columns != [] && added != [] && WellFormed(cfg.heatmap, h)
    requires Spaced(s.history.columns + added, cfg.heatmap.timeBucket, Below(|s.history.columns + added|))
    requires h.columns == KeepLast(s.history.columns + added, cfg.heatmap.maxColumns)
    requires h.resolved == s.history.resolved
    ensures CanReplace(WithHistory(s, h))
    ensures Emits(cfg, s, AfterCollecting(WithHistory(s, h)), Collected(WithHistory(s, h)))
  {
    var w, max := s.history.columns, cfg.heatmap.maxColumns;
    var kept := KeepLast(added, max);
    KeptIsSuffix(w, added, max);
    assert KeepLast(w + kept, max) == h.columns by {
      KeepLastSplit(w, added, max);
    }
    KeptAreNewer(cfg, s, added);
    SuffixFullWidth(cfg.heatmap, h.columns, kept);
    KeptColumnsEmit(cfg, s, h, kept);
  }

  lemma {:induction false} KeptAreNewer(cfg: EngineConfig, s: EngineState, added: Columns)
    requires Emitting(cfg, s) && s.history.columns != [] && added != []
    requires Spaced(s.history.columns + added, cfg.heatmap.timeBucket, Below(|s.history.columns + added|))
    ensures s.history.columns[|s.history.columns| - 1].timestamp < added[|added| - 1].timestamp
    ensures Newer(KeepLast(s.history.columns + added, cfg.heatmap.maxColumns), s.lastEmitted)
      == KeepLast(added, cfg.heatmap.maxColumns)
  {
    NewerAfterSample(s.history.columns, added, cfg.heatmap.timeBucket, cfg.heatmap.maxColumns);
    AddedTimes(s.history.columns, added, cfg.heatmap.timeBucket);
  }

  /** The state once a window has been emitted up to its end. */
  function Emitted(s: EngineState, h: HistoryState, peak: real, next: nat): EngineState
    requires h.columns != []
  {
    WithHistory(s, h).(peak := peak, nextIndex := next, lastEmitted := Some(h.columns[|h.columns| - 1].timestamp))
  }

  lemma {:induction false} CollectingNewer(s: EngineState, h: HistoryState, kept: Columns)
    requires s.history.columns != [] && h.columns != [] && kept != [] && CanReplace(WithHistory(s, h))
    requires !Replaces(WithHistory(s, h)) && Newer(h.columns, s.lastEmitted) == kept
    requires kept[|kept| - 1] == h.columns[|h.columns| - 1]
    ensures Collected(WithHistory(s, h)) == Numbered(kept, s.nextIndex)
    ensures AfterCollecting(WithHistory(s, h)) == Emitted(s, h, ColumnsPeak(s.peak, kept), s.nextIndex + |kept|)
  {}

  lemma {:induction false} NumberedUpdates(cfg: HeatmapConfig, w: Columns, peak: real, next: nat, kept: Columns)
    requires |w| <= next && |kept| <= cfg.maxColumns && Dominated(peak, w) && FullWidth(cfg, kept)
    ensures var updates, window := Numbered(kept, next), KeepLast(w + kept, cfg.maxColumns);
      && |window| <= next + |kept|
      && MirrorWindow(w, next, updates, cfg.maxColumns) == Some(Indexed(window, next + |kept|))
      && UpdatesPeak(peak, updates) == ColumnsPeak(peak, kept)
      && Dominated(ColumnsPeak(peak, kept), window)
      && NextAfter(next, updates) == Some(next + |kept|)
      && FullWidthUpdates(cfg, updates)
  {
    MirrorAppends(w, kept, next, cfg.maxColumns);
    NumberedFullWidth(cfg, kept, next);
    NumberedPeak(peak, kept, next);
    NumberedContinues(kept, next);
    DominatedWindow(peak, w, kept, cfg.maxColumns);
  }

  lemma {:induction false} KeptEmitted(cfg: EngineConfig, s: EngineState, h: HistoryState, kept: Columns)
    requires Emitting(cfg, s) && WellFormed(cfg.heatmap, h)
    requires h.columns != [] && |kept| <= |h.columns| && FullWidth(cfg.heatmap, kept)
    requires h.columns == KeepLast(s.history.columns + kept, cfg.heatmap.maxColumns)
    requires s.history.columns != [] ==> h.resolved == s.history.resolved
    ensures Emits(
      cfg, s, Emitted(s, h, ColumnsPeak(s.peak, kept), s.nextIndex + |kept|), Numbered(kept, s.nextIndex))
  {
    NumberedUpdates(cfg.heatmap, s.history.columns, s.peak, s.nextIndex, kept);
    EmitsNumbered(cfg, s, h, ColumnsPeak(s.peak, kept), s.nextIndex + |kept|, Numbered(kept, s.nextIndex));
  }

  lemma {:induction false} KeptColumnsEmit(cfg: EngineConfig, s: EngineState, h: HistoryState, kept: Columns)
    requires Emitting(cfg, s) && s.history.columns != [] && WellFormed(cfg.heatmap, h)
    requires h.columns != [] && kept != [] && |kept| <= |h.columns| && FullWidth(cfg.heatmap, kept)
    requires kept[|kept| - 1] == h.columns[|h.columns| - 1]
    requires s.history.columns[|s.history.columns| - 1].timestamp < kept[|kept| - 1].timestamp
    requires Newer(h.columns, s.lastEmitted) == kept
    requires h.columns == KeepLast(s.history.columns + kept, cfg.heatmap.maxColumns)
    requires h.resolved == s.history.resolved
    ensures CanReplace(WithHistory(s, h))
    ensures Emits(cfg, s, AfterCollecting(WithHistory(s, h)), Collected(WithHistory(s, h)))
  {
    CollectingNewer(s, h, kept);
    KeptEmitted(cfg, s, h, kept);
  }

  lemma {:induction false} EmitsNumbered(
      cfg: EngineConfig, s: EngineState, h: HistoryState, peak: real, next: nat, updates: seq<ColumnUpdate>)
    requires Emitting(cfg, s) && WellFormed(cfg.heatmap, h)
    requires |h.columns| <= next && h.columns != []
    requires MirrorWindow(s.history.columns, s.nextIndex, updates, cfg.heatmap.maxColumns)
      == Some(Indexed(h.columns, next))
    requires peak == UpdatesPeak(s.peak, updates) && FullWidthUpdates(cfg.heatmap, updates)
    requires Dominated(peak, h.columns) && NextAfter(s.nextIndex, updates) == Some(next)
    requires s.history.columns != [] ==> h.resolved == s.history.resolved
    ensures Emits(cfg, s, Emitted(s, h, peak, next), updates)
  {}

  lemma {:induction false} SuffixFullWidth(cfg: HeatmapConfig, columns: Columns, kept: Columns)
    requires FullWidth(cfg, columns) && |kept| <= |columns| && kept == columns[|columns| - |kept|..]
    ensures FullWidth(cfg, kept)
  {}

  lemma {:induction false} CollectingFirst(s: EngineState, h: HistoryState, c: HeatmapColumn)
    requires s.lastEmitted == None && h.columns == [c]
    ensures CanReplace(WithHistory(s, h))
    ensures Collected(WithHistory(s, h)) == Numbered([c], s.nextIndex)
    ensures AfterCollecting(WithHistory(s, h)) == Emitted(s, h, ColumnsPeak(s.peak, [c]), s.nextIndex + 1)
  {
    assert [c][..0] == [];
    assert Newer([c], None) == [] + [c];
  }

  lemma {:induction false} FirstColumnEmits(cfg: EngineConfig, s: EngineState, h: HistoryState, c: HeatmapColumn)
    requires Emitting(cfg, s) && s.history.columns == []
    requires h.columns == [c] && WellFormed(cfg.heatmap, h)
    ensures CanReplace(WithHistory(s, h))
    ensures Emits(cfg, s, AfterCollecting(WithHistory(s, h)), Collected(WithHistory(s, h)))
  {
    CollectingFirst(s, h, c);
    assert s.history.columns + [c] == [c];
    KeptEmitted(cfg, s, h, [c]);
  }

  /** The sampled history of a well-formed one: which of the three shapes of emission it asks for. */
  lemma {:induction false} SampledHistory(cfg: EngineConfig, s: EngineState, timestamp: int, book: Book)
    requires Emitting(cfg, s) && Observe(cfg.heatmap, s.history, timestamp, book).1 == Sampled
    ensures var h := Sampling(cfg, s, timestamp, book).0;
      WellFormed(cfg.heatmap, h) && Emits(cfg, s, AfterCollecting(WithHistory(s, h)), Collected(WithHistory(s, h)))
  {
    var hc := cfg.heatmap;
    var h := Sampling(cfg, s, timestamp, book).0;
    ResolvedSizeIsPositiveIfKnown(hc, s.history.resolved, book);
    var c := ColumnFor(
      hc, ResolveBinSize(hc, s.history.resolved, book).size, BucketStart(timestamp, hc.timeBucket), book).value;
    BucketStartIsFloor(timestamp, hc.timeBucket);
    StepKeepsChronology(hc, s.history, SampleCall(timestamp, book));
    var w := s.history.columns;
    if w == [] {
      FirstColumnEmits(cfg, s, h, c);
    } else {
      BucketStartMonotone(s.history.lastObservation.value, timestamp, hc.timeBucket);
      if c.timestamp == w[|w| - 1].timestamp {
        assert w[..|w| - 1] + [c] == w[|w| - 1 := c];
        ExtendIsSpaced(w, s.history.carryForward, c, hc.timeBucket, Below(|w|));
        ReplacedColumnEmits(cfg, s, h, c);
      } else {
        LaterColumnsEmit(cfg, s, h, c);
      }
    }
  }

  lemma {:induction false} LaterColumnsEmit(cfg: EngineConfig, s: EngineState, h: HistoryState, c: HeatmapColumn)
    requires Emitting(cfg, s) && s.history.columns != [] && FullWidthColumn(cfg.heatmap, c)
    requires Aligned(c.timestamp, cfg.heatmap.timeBucket)
    requires s.history.columns[|s.history.columns| - 1].timestamp < c.timestamp
    requires h.columns == KeepLast(
      Extend(s.history.columns, s.history.carryForward, c, cfg.heatmap.timeBucket), cfg.heatmap.maxColumns)
    requires h.resolved == s.history.resolved && h.resolved.Some?
    requires Chronological(cfg.heatmap, h)
    ensures WellFormed(cfg.heatmap, h)
    ensures Emits(cfg, s, AfterCollecting(WithHistory(s, h)), Collected(WithHistory(s, h)))
  {
    var all := Extend(s.history.columns, s.history.carryForward, c, cfg.heatmap.timeBucket);
    ExtendAdds(cfg.heatmap, s.history, c);
    KeptIsWellFormed(cfg.heatmap, h, all);
    AppendedRestEmits(cfg, s, h, all);
  }

  lemma {:induction false} KeptIsWellFormed(cfg: HeatmapConfig, h: HistoryState, all: Columns)
    requires cfg.Valid() && Spaced(all, cfg.timeBucket, Below(|all|)) && FullWidth(cfg, all)
    requires h.columns == KeepLast(all, cfg.maxColumns) && h.resolved.Some? && Chronological(cfg, h)
    ensures WellFormed(cfg, h)
  {
    SpacedSuffix(all, cfg.timeBucket, cfg.maxColumns);
    SuffixFullWidth(cfg, all, h.columns);
  }

  lemma {:induction false} AppendedRestEmits(cfg: EngineConfig, s: EngineState, h: HistoryState, all: Columns)
    requires Emitting(cfg, s) && s.history.columns != [] && s.history.columns < all && WellFormed(cfg.heatmap, h)
    requires Spaced(all, cfg.heatmap.timeBucket, Below(|all|))
    requires h.columns == KeepLast(all, cfg.heatmap.maxColumns) && h.resolved == s.history.resolved
    ensures CanReplace(WithHistory(s, h))
    ensures Emits(cfg, s, AfterCollecting(WithHistory(s, h)), Collected(WithHistory(s, h)))
  {
    var added := all[|s.history.columns|..];
    assert all == s.history.columns + added;
    AppendedColumnsEmit(cfg, s, h, added);
  }

  lemma {:induction false} SameWindowEmits(cfg: EngineConfig, s: EngineState, next: EngineState)
    requires Emitting(cfg, s) && WellFormed(cfg.heatmap, next.history) && next.history.columns == s.history.columns
    requires s.history.columns != [] ==> next.history.resolved == s.history.resolved
    requires next.nextIndex == s.nextIndex && next.lastEmitted == s.lastEmitted && next.peak == s.peak
    ensures Emits(cfg, s, next, [])
  {}

  predicate StatusFollows(s: EngineState, next: EngineState, change: Option<LiveStatus>) {
    next.status == if change.Some? then change.value else s.status
  }

  /** What a call reports; an exception reports nothing. */
  function Reported(r: Result<EngineResult, EngineError>): EngineResult {
    match r case Success(value) => value case Failure(_) => NOTHING
  }

  predicate Reports(cfg: EngineConfig, s: EngineState, next: EngineState, r: EngineResult)
    requires Emitting(cfg, s)
  {
    Emits(cfg, s, next, r.columns) && StatusFollows(s, next, r.statusChange)
  }

  lemma {:induction false} SampledReports(cfg: EngineConfig, s: EngineState, timestamp: int, book: Book)
    requires Emitting(cfg, s) && Observe(cfg.heatmap, s.history, timestamp, book).1 == Sampled
    ensures var p := SampleAndCollect(cfg, s, timestamp, book);
      Reports(cfg, s, p.state, Reported(p.result))
  {
    SampledHistory(cfg, s, timestamp, book);
  }

  lemma {:induction false} UnsampledHistory(cfg: HeatmapConfig, h: HistoryState, timestamp: int, book: Book)
    requires cfg.Valid() && WellFormed(cfg, h) && Observe(cfg, h, timestamp, book).1 != Sampled
    ensures var next := Observe(cfg, h, timestamp, book).0;
      WellFormed(cfg, next) && next.columns == h.columns && (h.columns != [] ==> next.resolved == h.resolved)
  {
    StepKeepsChronology(cfg, h, SampleCall(timestamp, book));
    ResolvedSizeIsPositiveIfKnown(cfg, h.resolved, book);
  }

  lemma {:induction false} SampleAndCollectReports(cfg: EngineConfig, s: EngineState, timestamp: int, book: Book)
    requires Emitting(cfg, s)
    ensures var p := SampleAndCollect(cfg, s, timestamp, book);
      Reports(cfg, s, p.state, Reported(p.result))
  {
    if Observe(cfg.heatmap, s.history, timestamp, book).1 == Sampled {
      SampledReports(cfg, s, timestamp, book);
    } else {
      UnsampledHistory(cfg.heatmap, s.history, timestamp, book);
      SameWindowEmits(cfg, s, SampleAndCollect(cfg, s, timestamp, book).state);
    }
  }

  // ---------- Every call of the engine ----------

  /** A change of anything but the window, the emitted position and the peak. */
  predicate SameEmission(s: EngineState, mid: EngineState) {
    && mid.history.columns == s.history.columns && mid.history.lastObservation == s.history.lastObservation
    && mid.history.resolved == s.history.resolved
    && mid.nextIndex == s.nextIndex && mid.lastEmitted == s.lastEmitted && mid.peak == s.peak
  }

  lemma {:induction false} ReportsFrom(
      cfg: EngineConfig, s: EngineState, mid: EngineState, next: EngineState, r: EngineResult)
    requires Emitting(cfg, s) && SameEmission(s, mid) && mid.status == s.status
    requires Emitting(cfg, mid) ==> Reports(cfg, mid, next, r)
    ensures Reports(cfg, s, next, r)
  {}

  lemma {:induction false} QuietReports(
      cfg: EngineConfig, s: EngineState, next: EngineState, change: Option<LiveStatus>)
    requires Emitting(cfg, s) && SameEmission(s, next) && StatusFollows(s, next, change)
    ensures Reports(cfg, s, next, EngineResult(change, []))
  {
    SameWindowEmits(cfg, s, next);
  }

  datatype EngineCall = RawCall(parsed: Option<ParsedMessage>) | TrustedCall(event: TrustedBookEvent) | RecoveryCall

  function EngineStep(cfg: EngineConfig, s: EngineState, call: EngineCall): Processed
    requires cfg.heatmap.Valid() && PositiveSize(s.history) && CanReplace(s)
  {
    match call
    case RawCall(parsed) => ProcessRaw(cfg, s, parsed)
    case TrustedCall(event) => ProcessTrusted(cfg, s, event)
    case RecoveryCall => Step(Recovery(s).state, Success(Recovery(s).result))
  }

  lemma {:induction false} SampledAfterReports(
      cfg: EngineConfig, s: EngineState, next: EngineState, timestamp: int, book: Book)
    requires Emitting(cfg, s) && Emitting(cfg, next) && SameEmission(s, next) && next.status == s.status
    ensures var p := SampleAndCollect(cfg, next, timestamp, book); Reports(cfg, s, p.state, Reported(p.result))
  {
    var p := SampleAndCollect(cfg, next, timestamp, book);
    SampleAndCollectReports(cfg, next, timestamp, book);
    ReportsFrom(cfg, s, next, p.state, Reported(p.result));
  }

  lemma {:induction false} StillEmitting(cfg: EngineConfig, s: EngineState, next: EngineState)
    requires Emitting(cfg, s) && SameEmission(s, next)
    ensures Emitting(cfg, next)
  {}

  lemma {:induction false} BookMessageReports(cfg: EngineConfig, s: EngineState, number: SequenceNumber, m: BookMessage)
    requires Emitting(cfg, s)
    ensures var p := ProcessBookMessage(cfg, s, number, m); Reports(cfg, s, p.state, Reported(p.result))
  {
    var p := ProcessBookMessage(cfg, s, number, m);
    var sequence := Classify(s.tracker, number).status;
    var observed := s.(tracker := Advance(s.tracker, number));
    var noted := NoteGap(observed, sequence, m.kind);
    var next := noted.(
      reconstruction := Reconstruct(noted.reconstruction, m, sequence),
      tracker := if m.kind.SnapshotMessage? && sequence == Gap then Some(number) else noted.tracker);
    if m.product != cfg.product {
      QuietReports(cfg, s, p.state, None);
    } else if Applies(noted.reconstruction, m, sequence) {
      StillEmitting(cfg, s, next);
      SampledAfterReports(cfg, s, next, m.timestamp, next.reconstruction.book);
    } else {
      QuietReports(cfg, s, p.state, if sequence == Gap then StatusChange(s, SequenceGap) else None);
    }
  }

  /**
   Whatever the engine is fed, what it reports is exactly what turns a copy of its
   window, its peak and its status into the new ones; an exception reports and changes
   none of them.
   */
  lemma {:induction false} EngineReportsItsWindow(cfg: EngineConfig, s: EngineState, call: EngineCall)
    requires Emitting(cfg, s)
    ensures var p := EngineStep(cfg, s, call); Reports(cfg, s, p.state, Reported(p.result))
  {
    var p := EngineStep(cfg, s, call);
    match call {
      case RecoveryCall =>
        QuietReports(cfg, s, p.state, StatusChange(s, AwaitingSnapshot));
      case RawCall(parsed) =>
        if parsed.Some? && parsed.value.book.Some? {
          BookMessageReports(cfg, s, parsed.value.number, parsed.value.book.value);
        } else {
          QuietReports(cfg, s, p.state, None);
        }
      case TrustedCall(e) =>
        if e.market.product != cfg.product || (e.kind.Update? && s.status == AwaitingSnapshot) {
          QuietReports(cfg, s, p.state, None);
        } else if e.kind.Invalidated? {
          QuietReports(cfg, s, p.state, StatusChange(s, AwaitingSnapshot));
        } else if e.book.Some? {
          SampleAndCollectReports(cfg, s, e.timestamp, e.book.value);
        } else {
          QuietReports(cfg, s, p.state, None);
        }
    }
  }

  function EngineRun(cfg: EngineConfig, calls: seq<EngineCall>): (s: EngineState)
    requires cfg.heatmap.Valid()
    ensures Emitting(cfg, s)
  {
    if calls == [] then
      InitiallyEmitting(cfg);
      InitialEngine(cfg)
    else
      var s := EngineRun(cfg, calls[..|calls| - 1]);
      EngineReportsItsWindow(cfg, s, calls[|calls| - 1]);
      EngineStep(cfg, s, calls[|calls| - 1]).state
  }
}
