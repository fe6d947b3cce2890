/** The streaming 1-minute to 5-minute aggregator (data/bar_aggregator.py).

    Time is in microseconds since the epoch, UTC, so the floor of the minute
    field to a multiple of five is the floor of the time to a multiple of
    `WINDOW`. `SymStep` is what one bar does to its own symbol; `Emission` is
    what a stream of bars of many symbols hands to the callback.
  */
module BarAggregator {
  import Sequences

  const MINUTE: int := 60_000_000
  const WINDOW: int := 300_000_000

  datatype MinuteBar = MinuteBar(
    symbol: string, timestamp: int, open: real, high: real, low: real, close: real, volume: int)

  datatype FiveMinBar = FiveMinBar(
    symbol: string, timestamp: int, open: real, high: real, low: real, close: real, volume: int, barCount: nat)

  function WindowStart(ts: int): int { ts - ts % WINDOW }

  function WindowOf(b: MinuteBar): int { WindowStart(b.timestamp) }

  function MaxHigh(bars: seq<MinuteBar>): real
    requires bars != []
  {
    var n := |bars| - 1;
    if n == 0 then bars[0].high
    else var m := MaxHigh(bars[..n]); if bars[n].high > m then bars[n].high else m
  }

  function MinLow(bars: seq<MinuteBar>): real
    requires bars != []
  {
    var n := |bars| - 1;
    if n == 0 then bars[0].low
    else var m := MinLow(bars[..n]); if bars[n].low < m then bars[n].low else m
  }

  function Volume(bars: seq<MinuteBar>): int {
    if bars == [] then 0 else Volume(bars[..|bars| - 1]) + bars[|bars| - 1].volume
  }

  function VolumeOut(out: seq<FiveMinBar>): int {
    if out == [] then 0 else VolumeOut(out[..|out| - 1]) + out[|out| - 1].volume
  }

  function Fold(bars: seq<MinuteBar>, window: int): FiveMinBar
    requires bars != []
  {
    FiveMinBar(bars[0].symbol, window, bars[0].open, MaxHigh(bars), MinLow(bars), bars[|bars| - 1].close,
               Volume(bars), |bars|)
  }

  /** The high and the low are attained, and nothing is above or below them. */
  lemma HighLow(bars: seq<MinuteBar>)
    requires bars != []
    ensures forall i :: 0 <= i < |bars| ==> MinLow(bars) <= bars[i].low && bars[i].high <= MaxHigh(bars)
    ensures exists i :: 0 <= i < |bars| && bars[i].high == MaxHigh(bars)
    ensures exists i :: 0 <= i < |bars| && bars[i].low == MinLow(bars)
  {
    HighAttained(bars);
    LowAttained(bars);
  }

  lemma {:induction false} HighAttained(bars: seq<MinuteBar>)
    requires bars != []
    ensures forall i :: 0 <= i < |bars| ==> bars[i].high <= MaxHigh(bars)
    ensures exists i :: 0 <= i < |bars| && bars[i].high == MaxHigh(bars)
  {
    var n := |bars| - 1;
    assert n == 0 ==> bars[n].high == MaxHigh(bars);
    if n > 0 {
      HighAttained(bars[..n]);
      forall i | 0 <= i < n ensures bars[i].high <= MaxHigh(bars[..n]) {
        assert bars[..n][i] == bars[i];
      }
      var i :| 0 <= i < n && bars[..n][i].high == MaxHigh(bars[..n]);
      assert bars[i].high == MaxHigh(bars) || bars[n].high == MaxHigh(bars);
    }
  }

  lemma {:induction false} LowAttained(bars: seq<MinuteBar>)
    requires bars != []
    ensures forall i :: 0 <= i < |bars| ==> MinLow(bars) <= bars[i].low
    ensures exists i :: 0 <= i < |bars| && bars[i].low == MinLow(bars)
  {
    var n := |bars| - 1;
    assert n == 0 ==> bars[n].low == MinLow(bars);
    if n > 0 {
      LowAttained(bars[..n]);
      forall i | 0 <= i < n ensures MinLow(bars[..n]) <= bars[i].low {
        assert bars[..n][i] == bars[i];
      }
      var i :| 0 <= i < n && bars[..n][i].low == MinLow(bars[..n]);
      assert bars[i].low == MinLow(bars) || bars[n].low == MinLow(bars);
    }
  }

  // ---------------------------------------------------------------- one symbol

  datatype Open = NoWindow | Window(start: int, bars: seq<MinuteBar>)

  /** `on_minute_bar`, for the symbol of the bar: the open window afterwards and
      what is emitted. */
  function SymStep(o: Open, b: MinuteBar): (Open, seq<FiveMinBar>) {
    var target := WindowOf(b);
    if o.NoWindow? then (Window(target, [b]), [])
    else if target == o.start then (Window(o.start, o.bars + [b]), [])
    else if target > o.start then (Window(target, [b]), Emit(o))
    else (o, [])
  }

  function Emit(o: Open): seq<FiveMinBar> {
    if o.NoWindow? || o.bars == [] then [] else [Fold(o.bars, o.start)]
  }

  function SymRun(bars: seq<MinuteBar>): (Open, seq<FiveMinBar>) {
    if bars == [] then (NoWindow, [])
    else
      var (o, out) := SymRun(bars[..|bars| - 1]);
      var (o', more) := SymStep(o, bars[|bars| - 1]);
      (o', out + more)
  }

  /** Everything emitted for the symbol once its open window has been flushed. */
  function Flushed(bars: seq<MinuteBar>): seq<FiveMinBar> {
    var (o, out) := SymRun(bars);
    out + Emit(o)
  }

  // ---------------------------------------------------------------- batch grouping

  /** The bars whose window is not before the window of an earlier bar. */
  ghost function NonLate(bars: seq<MinuteBar>): seq<MinuteBar> {
    if bars == [] then []
    else
      var n := |bars| - 1;
      NonLate(bars[..n]) +
      (if forall i :: 0 <= i < n ==> WindowOf(bars[i]) <= WindowOf(bars[n]) then [bars[n]] else [])
  }

  function InWindow(bars: seq<MinuteBar>, w: int): seq<MinuteBar> {
    if bars == [] then []
    else
      var n := |bars| - 1;
      InWindow(bars[..n], w) + (if WindowOf(bars[n]) == w then [bars[n]] else [])
  }

  ghost predicate Increasing(out: seq<FiveMinBar>) {
    forall i, j :: 0 <= i < j < |out| ==> out[i].timestamp < out[j].timestamp
  }

  ghost predicate Covers(out: seq<FiveMinBar>, w: int) {
    exists i :: 0 <= i < |out| && out[i].timestamp == w
  }

  /** `out` groups `bars` by window: one five-minute bar for each window that
      has bars, in increasing order, folding exactly the bars of the window. */
  ghost predicate IsGrouping(out: seq<FiveMinBar>, bars: seq<MinuteBar>) {
    && Increasing(out)
    && (forall i :: 0 <= i < |out| ==>
          InWindow(bars, out[i].timestamp) != []
          && out[i] == Fold(InWindow(bars, out[i].timestamp), out[i].timestamp))
    && (forall i :: 0 <= i < |bars| ==> Covers(out, WindowOf(bars[i])))
  }

  /** What holds between two bars of a symbol. */
  ghost predicate SymInv(o: Open, out: seq<FiveMinBar>, bars: seq<MinuteBar>) {
    var kept := NonLate(bars);
    && (o.NoWindow? <==> bars == [])
    && (o.NoWindow? ==> out == [])
    && (o.Window? ==>
          && o.bars != [] && o.bars == InWindow(kept, o.start)
          && (forall i :: 0 <= i < |bars| ==> WindowOf(bars[i]) <= o.start)
          && (exists i :: 0 <= i < |bars| && WindowOf(bars[i]) == o.start)
          && Increasing(out)
          && (forall i :: 0 <= i < |out| ==> Grouped(out[i], kept, o.start))
          && (forall i :: 0 <= i < |kept| ==> WindowOf(kept[i]) == o.start || Covers(out, WindowOf(kept[i]))))
  }

  ghost predicate Grouped(f: FiveMinBar, kept: seq<MinuteBar>, before: int) {
    && f.timestamp < before
    && InWindow(kept, f.timestamp) != []
    && f == Fold(InWindow(kept, f.timestamp), f.timestamp)
  }

  lemma InWindowAppend(bars: seq<MinuteBar>, b: MinuteBar, w: int)
    ensures InWindow(bars + [b], w) == if WindowOf(b) == w then InWindow(bars, w) + [b] else InWindow(bars, w)
  {
    assert (bars + [b])[..|bars|] == bars;
  }

  lemma {:induction false} InWindowNone(bars: seq<MinuteBar>, w: int)
    requires forall i :: 0 <= i < |bars| ==> WindowOf(bars[i]) < w
    ensures InWindow(bars, w) == []
  {
    if bars != [] { InWindowNone(bars[..|bars| - 1], w); }
  }

  lemma {:induction false} NonLateIsPart(bars: seq<MinuteBar>)
    ensures forall b :: b in NonLate(bars) ==> b in bars
  {
    if bars != [] {
      NonLateIsPart(bars[..|bars| - 1]);
      assert bars == bars[..|bars| - 1] + [bars[|bars| - 1]];
    }
  }

  ghost predicate OnTime(bars: seq<MinuteBar>, w: int) {
    forall i :: 0 <= i < |bars| ==> WindowOf(bars[i]) <= w
  }

  lemma NonLateAppend(bars: seq<MinuteBar>, b: MinuteBar)
    ensures NonLate(bars + [b]) == if OnTime(bars, WindowOf(b)) then NonLate(bars) + [b] else NonLate(bars)
  {
    var all := bars + [b];
    assert all[..|bars|] == bars && all[|bars|] == b;
    assert OnTime(bars, WindowOf(b)) <==> forall i :: 0 <= i < |bars| ==> WindowOf(all[i]) <= WindowOf(all[|bars|]);
  }

  lemma LateKeeps(o: Open, out: seq<FiveMinBar>, bars: seq<MinuteBar>, b: MinuteBar)
    requires SymInv(o, out, bars) && o.Window? && WindowOf(b) < o.start
    ensures SymInv(o, out, bars + [b])
  {
    NonLateAppend(bars, b);
    var j :| 0 <= j < |bars| && WindowOf(bars[j]) == o.start;
    assert (bars + [b])[j] == bars[j];
  }

  lemma SameKeeps(o: Open, out: seq<FiveMinBar>, bars: seq<MinuteBar>, b: MinuteBar)
    requires SymInv(o, out, bars) && o.Window? && WindowOf(b) == o.start
    ensures SymInv(Window(o.start, o.bars + [b]), out, bars + [b])
  {
    NonLateAppend(bars, b);
    var kept := NonLate(bars);
    InWindowAppend(kept, b, o.start);
    assert (bars + [b])[|bars|] == b;
    forall i | 0 <= i < |out| ensures Grouped(out[i], kept + [b], o.start) {
      assert Grouped(out[i], kept, o.start);
      InWindowAppend(kept, b, out[i].timestamp);
    }
  }

  lemma FirstKeeps(b: MinuteBar)
    ensures SymInv(Window(WindowOf(b), [b]), [], [b])
  {
    NonLateAppend([], b);
    InWindowAppend([], b, WindowOf(b));
    assert [] + [b] == [b];
  }

  lemma SymStepKeeps(o: Open, out: seq<FiveMinBar>, bars: seq<MinuteBar>, b: MinuteBar)
    requires SymInv(o, out, bars)
    ensures SymInv(SymStep(o, b).0, out + SymStep(o, b).1, bars + [b])
  {
    assert o.NoWindow? ==> bars + [b] == [b] && out == [];
    assert o.Window? ==> o.bars != [];
    hide SymInv;
    assert out + [] == out;
    if o.NoWindow? {
      FirstKeeps(b);
    } else if WindowOf(b) < o.start {
      LateKeeps(o, out, bars, b);
    } else if WindowOf(b) == o.start {
      SameKeeps(o, out, bars, b);
    } else {
      NonLateOnTime(o, out, bars, b);
      NewWindowKeeps(o, out, bars, b);
    }
  }

  lemma NonLateOnTime(o: Open, out: seq<FiveMinBar>, bars: seq<MinuteBar>, b: MinuteBar)
    requires SymInv(o, out, bars) && o.Window? && WindowOf(b) >= o.start
    ensures NonLate(bars + [b]) == NonLate(bars) + [b]
  {
    NonLateAppend(bars, b);
  }

  lemma NewWindowKeeps(o: Open, out: seq<FiveMinBar>, bars: seq<MinuteBar>, b: MinuteBar)
    requires SymInv(o, out, bars) && o.Window? && WindowOf(b) > o.start
    requires NonLate(bars + [b]) == NonLate(bars) + [b]
    ensures SymInv(Window(WindowOf(b), [b]), out + [Fold(o.bars, o.start)], bars + [b])
  {
    NewWindowStarts(o, out, bars, b);
    NewWindowGroups(o, out, bars, b);
    NewWindowCovers(o, out, bars, b);
    assert (bars + [b])[|bars|] == b;
    assert forall i :: 0 <= i < |out| ==> Grouped(out[i], NonLate(bars), o.start);
    hide Grouped, Covers, NonLate, InWindow, WindowOf, MaxHigh, MinLow, Volume;
  }

  lemma NewWindowStarts(o: Open, out: seq<FiveMinBar>, bars: seq<MinuteBar>, b: MinuteBar)
    requires SymInv(o, out, bars) && o.Window? && WindowOf(b) > o.start
    ensures InWindow(NonLate(bars) + [b], WindowOf(b)) == [b]
    ensures Increasing(out + [Fold(o.bars, o.start)])
  {
    hide WindowOf, NonLate, Covers, MaxHigh, MinLow, Volume, InWindow;
    var kept, w := NonLate(bars), WindowOf(b);
    KeptBefore(o, out, bars, w);
    InWindowNone(kept, w);
    InWindowAppend(kept, b, w);
    assert forall i :: 0 <= i < |out| ==> Grouped(out[i], kept, o.start);
  }

  lemma KeptBefore(o: Open, out: seq<FiveMinBar>, bars: seq<MinuteBar>, w: int)
    requires SymInv(o, out, bars) && o.Window? && w > o.start
    ensures forall i :: 0 <= i < |NonLate(bars)| ==> WindowOf(NonLate(bars)[i]) < w
  {
    hide WindowOf, NonLate, Covers, Grouped, InWindow, Increasing;
    var kept := NonLate(bars);
    NonLateIsPart(bars);
    forall i | 0 <= i < |kept| ensures WindowOf(kept[i]) < w {
      assert kept[i] in bars;
    }
  }

  lemma NewWindowGroups(o: Open, out: seq<FiveMinBar>, bars: seq<MinuteBar>, b: MinuteBar)
    requires SymInv(o, out, bars) && o.Window? && WindowOf(b) > o.start
    ensures var out' := out + [Fold(o.bars, o.start)];
      forall i :: 0 <= i < |out'| ==> Grouped(out'[i], NonLate(bars) + [b], WindowOf(b))
  {
    hide WindowOf, NonLate, Covers, Increasing, MaxHigh, MinLow, Volume, InWindow;
    var kept, w := NonLate(bars), WindowOf(b);
    var out' := out + [Fold(o.bars, o.start)];
    forall i | 0 <= i < |out'| ensures Grouped(out'[i], kept + [b], w) {
      InWindowAppend(kept, b, out'[i].timestamp);
      if i < |out| { assert Grouped(out[i], kept, o.start); }
    }
  }

  lemma NewWindowCovers(o: Open, out: seq<FiveMinBar>, bars: seq<MinuteBar>, b: MinuteBar)
    requires SymInv(o, out, bars) && o.Window?
    ensures var out', kept' := out + [Fold(o.bars, o.start)], NonLate(bars) + [b];
      forall i :: 0 <= i < |kept'| ==> WindowOf(kept'[i]) == WindowOf(b) || Covers(out', WindowOf(kept'[i]))
  {
    hide WindowOf, NonLate, Increasing, Grouped, MaxHigh, MinLow, Volume, InWindow;
    var kept := NonLate(bars);
    var out' := out + [Fold(o.bars, o.start)];
    forall i | 0 <= i < |kept| ensures Covers(out', WindowOf(kept[i])) {
      if WindowOf(kept[i]) == o.start {
        assert out'[|out|].timestamp == o.start;
      } else {
        var j :| 0 <= j < |out| && out[j].timestamp == WindowOf(kept[i]);
        assert out'[j] == out[j];
      }
    }
  }

  lemma {:induction false} SymRunKeeps(bars: seq<MinuteBar>)
    ensures SymInv(SymRun(bars).0, SymRun(bars).1, bars)
  {
    if bars != [] {
      var front, b := bars[..|bars| - 1], bars[|bars| - 1];
      hide *;
      SymRunKeeps(front);
      RunAppend(front, b);
      assert front + [b] == bars;
      SymStepKeeps(SymRun(front).0, SymRun(front).1, front, b);
    }
  }

  /** The refinement: for one symbol, what the stream emits once flushed is the
      grouping of its non-late bars. */
  lemma StreamGroups(bars: seq<MinuteBar>)
    ensures IsGrouping(Flushed(bars), NonLate(bars))
  {
    SymRunKeeps(bars);
    var (o, out) := SymRun(bars);
    var kept, flushed := NonLate(bars), Flushed(bars);
    if o.Window? {
      NonLateIsPart(bars);
      forall i | 0 <= i < |flushed|
        ensures InWindow(kept, flushed[i].timestamp) != []
             && flushed[i] == Fold(InWindow(kept, flushed[i].timestamp), flushed[i].timestamp)
      {
        if i < |out| { assert Grouped(out[i], kept, o.start); }
      }
      forall i | 0 <= i < |kept| ensures Covers(flushed, WindowOf(kept[i])) {
        if WindowOf(kept[i]) == o.start {
          assert flushed[|out|].timestamp == o.start;
        } else {
          var j :| 0 <= j < |out| && out[j].timestamp == WindowOf(kept[i]);
          assert flushed[j] == out[j];
        }
      }
      assert forall i :: 0 <= i < |out| ==> Grouped(out[i], kept, o.start);
    }
  }

  lemma WindowHolds(ts: int)
    ensures WindowStart(ts) <= ts < WindowStart(ts) + 300_000_000 && WindowStart(ts) % 300_000_000 == 0
  {
  }

  lemma {:induction false} InWindowMembers(bars: seq<MinuteBar>, w: int)
    ensures forall i :: 0 <= i < |InWindow(bars, w)| ==> WindowOf(InWindow(bars, w)[i]) == w
  {
    if bars != [] { InWindowMembers(bars[..|bars| - 1], w); }
  }

  /** What an emitted bar says: it starts on a multiple of five minutes, all its
      one-minute bars lie in the five minutes from there, it opens with the first
      and closes with the last of them, and its extremes are theirs. */
  lemma EmittedBar(bars: seq<MinuteBar>, i: nat)
    requires i < |Flushed(bars)|
    ensures var f := Flushed(bars)[i];
            var group := InWindow(NonLate(bars), f.timestamp);
            && group != [] && f.timestamp % 300_000_000 == 0
            && (forall j :: 0 <= j < |group| ==> f.timestamp <= group[j].timestamp < f.timestamp + 300_000_000)
            && f.open == group[0].open && f.close == group[|group| - 1].close
            && f.volume == Volume(group) && f.barCount == |group|
            && (forall j :: 0 <= j < |group| ==> f.low <= group[j].low && group[j].high <= f.high)
            && (exists j :: 0 <= j < |group| && group[j].high == f.high)
            && (exists j :: 0 <= j < |group| && group[j].low == f.low)
  {
    StreamGroups(bars);
    var f := Flushed(bars)[i];
    var group := InWindow(NonLate(bars), f.timestamp);
    InWindowMembers(NonLate(bars), f.timestamp);
    hide Flushed, NonLate, InWindow, Increasing, Covers, MaxHigh, MinLow, Volume, WindowStart;
    HighLow(group);
    forall j | 0 <= j < |group|
      ensures f.timestamp <= group[j].timestamp < f.timestamp + 300_000_000 && f.timestamp % 300_000_000 == 0
    {
      WindowHolds(group[j].timestamp);
    }
    assert f.timestamp % 300_000_000 == 0 by { WindowHolds(group[0].timestamp); }
  }

  predicate Earlier(a: FiveMinBar, b: FiveMinBar) { a.timestamp < b.timestamp }

  /** There is only one grouping, so `IsGrouping` pins the output down. */
  lemma GroupingUnique(x: seq<FiveMinBar>, y: seq<FiveMinBar>, bars: seq<MinuteBar>)
    requires IsGrouping(x, bars) && IsGrouping(y, bars)
    ensures x == y
  {
    hide Fold;
    forall f ensures f in x <==> f in y {
      if f in x { GroupedIn(x, y, bars, f); }
      if f in y { GroupedIn(y, x, bars, f); }
    }
    Sequences.StrictUnique(x, y, Earlier);
  }

  lemma GroupedIn(x: seq<FiveMinBar>, y: seq<FiveMinBar>, bars: seq<MinuteBar>, f: FiveMinBar)
    requires IsGrouping(x, bars) && IsGrouping(y, bars) && f in x
    ensures f in y
  {
    InWindowSome(bars, f.timestamp);
    var i :| 0 <= i < |bars| && WindowOf(bars[i]) == f.timestamp;
    assert Covers(y, WindowOf(bars[i]));
  }

  lemma {:induction false} InWindowSome(bars: seq<MinuteBar>, w: int)
    requires InWindow(bars, w) != []
    ensures exists i :: 0 <= i < |bars| && WindowOf(bars[i]) == w
  {
    var n := |bars| - 1;
    if WindowOf(bars[n]) != w {
      InWindowSome(bars[..n], w);
      var i :| 0 <= i < n && WindowOf(bars[..n][i]) == w;
      assert bars[i] == bars[..n][i];
    }
  }

  // ---------------------------------------------------------------- volume and counts

  lemma {:induction false} RunVolume(bars: seq<MinuteBar>)
    ensures var (o, out) := SymRun(bars);
            VolumeOut(out) + OpenVolume(o) == Volume(NonLate(bars))
  {
    hide SymInv, Fold;
    if bars != [] {
      var n := |bars| - 1;
      RunVolume(bars[..n]);
      SymRunKeeps(bars[..n]);
      var (o, out) := SymRun(bars[..n]);
      assert bars[..n] + [bars[n]] == bars;
      NonLateAppend(bars[..n], bars[n]);
      OnTimeIs(o, out, bars[..n], WindowOf(bars[n]));
      VolumeStep(o, out, NonLate(bars[..n]), bars[n]);
    }
  }

  lemma VolumeAppend(bars: seq<MinuteBar>, b: MinuteBar)
    ensures Volume(bars + [b]) == Volume(bars) + b.volume
  {
    assert (bars + [b])[..|bars|] == bars;
  }

  lemma VolumeOutAppend(out: seq<FiveMinBar>, f: FiveMinBar)
    ensures VolumeOut(out + [f]) == VolumeOut(out) + f.volume
  {
    assert (out + [f])[..|out|] == out;
  }

  lemma OnTimeIs(o: Open, out: seq<FiveMinBar>, bars: seq<MinuteBar>, w: int)
    requires SymInv(o, out, bars)
    ensures OnTime(bars, w) <==> (o.NoWindow? || w >= o.start)
    ensures o.Window? ==> o.bars != []
  {
  }

  function OpenVolume(o: Open): int { if o.NoWindow? then 0 else Volume(o.bars) }

  lemma VolumeStep(o: Open, out: seq<FiveMinBar>, kept: seq<MinuteBar>, b: MinuteBar)
    requires o.Window? ==> o.bars != []
    requires VolumeOut(out) + OpenVolume(o) == Volume(kept)
    ensures var (o', more) := SymStep(o, b);
            VolumeOut(out + more) + OpenVolume(o') ==
            Volume(if o.NoWindow? || WindowOf(b) >= o.start then kept + [b] else kept)
  {
    hide Fold, Volume, VolumeOut;
    VolumeAppend(kept, b);
    VolumeAppend([], b);
    assert Volume([]) == 0 by { VolumeNone(); }
    assert [] + [b] == [b] && out + [] == out;
    if o.Window? {
      VolumeAppend(o.bars, b);
      VolumeOutAppend(out, Fold(o.bars, o.start));
      FoldVolume(o.bars, o.start);
    }
  }

  lemma VolumeNone()
    ensures Volume([]) == 0
  {
  }

  lemma FoldVolume(bars: seq<MinuteBar>, w: int)
    requires bars != []
    ensures Fold(bars, w).volume == Volume(bars)
  {
  }

  /** Volume is conserved: late bars aside, none is lost or counted twice. */
  lemma VolumeConserved(bars: seq<MinuteBar>)
    ensures VolumeOut(Flushed(bars)) == Volume(NonLate(bars))
  {
    RunVolume(bars);
    SymRunKeeps(bars);
    var (o, out) := SymRun(bars);
    if o.Window? { VolumeOutAppend(out, Fold(o.bars, o.start)); } else { assert out + [] == out; }
  }

  ghost predicate MinuteAligned(bars: seq<MinuteBar>) {
    forall b :: b in bars ==> b.timestamp % MINUTE == 0
  }

  ghost predicate TimeIncreasing(bars: seq<MinuteBar>) {
    forall i, j :: 0 <= i < j < |bars| ==> bars[i].timestamp < bars[j].timestamp
  }

  lemma {:induction false} InWindowPart(bars: seq<MinuteBar>, w: int)
    ensures forall b :: b in InWindow(bars, w) ==> b in bars && WindowOf(b) == w
  {
    if bars != [] {
      InWindowPart(bars[..|bars| - 1], w);
      assert bars == bars[..|bars| - 1] + [bars[|bars| - 1]];
    }
  }

  lemma {:induction false} InWindowOrder(bars: seq<MinuteBar>, w: int)
    requires TimeIncreasing(bars)
    ensures TimeIncreasing(InWindow(bars, w))
    ensures InWindow(bars, w) != [] ==>
              InWindow(bars, w)[|InWindow(bars, w)| - 1].timestamp <= bars[|bars| - 1].timestamp
  {
    if bars != [] {
      var n := |bars| - 1;
      InWindowOrder(bars[..n], w);
      var f := InWindow(bars[..n], w);
      assert n > 0 ==> bars[n - 1].timestamp < bars[n].timestamp && bars[..n][n - 1] == bars[n - 1];
      assert f != [] ==> n > 0;
      hide TimeIncreasing;
      IncreasingAppend(f, bars[n]);
    }
  }

  lemma IncreasingAppend(f: seq<MinuteBar>, b: MinuteBar)
    requires TimeIncreasing(f) && (f != [] ==> f[|f| - 1].timestamp < b.timestamp)
    ensures TimeIncreasing(f + [b])
  {
  }

  lemma {:induction false} SpreadOut(g: seq<MinuteBar>, k: nat)
    requires MinuteAligned(g) && TimeIncreasing(g) && k < |g|
    ensures g[k].timestamp >= g[0].timestamp + MINUTE * k
  {
    if k > 0 {
      SpreadOut(g, k - 1);
      assert g[k - 1] in g && g[k] in g;
      MinuteApart(g[k - 1].timestamp, g[k].timestamp);
    }
  }

  lemma MinuteApart(s: int, t: int)
    requires s < t && s % MINUTE == 0 && t % MINUTE == 0
    ensures s + MINUTE <= t
  {
  }

  lemma SameWindow(s: int, t: int, w: int)
    requires WindowStart(s) == w && WindowStart(t) == w
    ensures t < s + WINDOW
  {
  }

  lemma FiveFit(g: seq<MinuteBar>, w: int)
    requires MinuteAligned(g) && TimeIncreasing(g)
    requires forall b :: b in g ==> WindowOf(b) == w
    ensures |g| <= 5
  {
    if |g| > 5 {
      SpreadOut(g, 5);
      assert g[0] in g && g[5] in g;
      SameWindow(g[0].timestamp, g[5].timestamp, w);
    }
  }

  /** A five-minute bar is made of at most five one-minute bars, when a symbol's
      bars lie on the minute and arrive in strictly increasing order. */
  lemma AtMostFive(bars: seq<MinuteBar>)
    requires MinuteAligned(bars) && TimeIncreasing(bars)
    ensures NonLate(bars) == bars
    ensures forall i :: 0 <= i < |Flushed(bars)| ==> 1 <= Flushed(bars)[i].barCount <= 5
  {
    NoneLate(bars);
    StreamGroups(bars);
    forall i | 0 <= i < |Flushed(bars)| ensures 1 <= Flushed(bars)[i].barCount <= 5 {
      var w := Flushed(bars)[i].timestamp;
      InWindowOrder(bars, w);
      InWindowPart(bars, w);
      FiveFit(InWindow(bars, w), w);
    }
  }

  lemma {:induction false} NoneLate(bars: seq<MinuteBar>)
    requires TimeIncreasing(bars)
    ensures NonLate(bars) == bars
  {
    if bars != [] {
      var n := |bars| - 1;
      NoneLate(bars[..n]);
      assert bars == bars[..n] + [bars[n]];
      forall i | 0 <= i < n ensures WindowOf(bars[..n][i]) <= WindowOf(bars[n]) {
        WindowMonotone(bars[i].timestamp, bars[n].timestamp);
      }
      NonLateAppend(bars[..n], bars[n]);
    }
  }

  lemma WindowMonotone(s: int, t: int)
    requires s <= t
    ensures WindowStart(s) <= WindowStart(t)
  {
  }

  // ---------------------------------------------------------------- after a flush

  lemma StepFirst(o: Open, out: seq<FiveMinBar>, b: MinuteBar)
    requires o.Window? && o.bars != []
    ensures var (o', more) := SymStep(o, b);
            (out + more + Emit(o')) != [] && (out + more + Emit(o'))[0].timestamp == (out + Emit(o))[0].timestamp
  {
    hide MaxHigh, MinLow, Volume, WindowOf;
  }

  lemma {:induction false} FirstWindow(bars: seq<MinuteBar>)
    requires bars != []
    ensures Flushed(bars) != [] && Flushed(bars)[0].timestamp == WindowOf(bars[0])
  {
    var n := |bars| - 1;
    assert SymRun(bars[..n]).0.NoWindow? <==> n == 0 by { SymRunKeeps(bars[..n]); }
    assert SymRun(bars[..n]).0.Window? ==> SymRun(bars[..n]).0.bars != [] by { SymRunKeeps(bars[..n]); }
    if n > 0 {
      FirstWindow(bars[..n]);
      StepFirst(SymRun(bars[..n]).0, SymRun(bars[..n]).1, bars[n]);
      assert bars[..n] + [bars[n]] == bars;
      hide SymStep, Emit;
      RunAppend(bars[..n], bars[n]);
    } else {
      assert bars[..0] == [];
      assert SymRun(bars) == (Window(WindowOf(bars[0]), [bars[0]]), []);
    }
  }

  lemma LastWindow(bars: seq<MinuteBar>)
    requires bars != []
    ensures SymRun(bars).0.Window?
    ensures Flushed(bars) != [] && Flushed(bars)[|Flushed(bars)| - 1].timestamp == SymRun(bars).0.start
  {
    SymRunKeeps(bars);
  }

  /** A flush forgets the open windows, so a symbol's output across it is in
      order if and only if its first bar afterwards opens a window after the one
      the flush closed. */
  lemma OrderAcrossFlush(before: seq<MinuteBar>, after: seq<MinuteBar>)
    requires before != [] && after != []
    ensures SymRun(before).0.Window?
    ensures Increasing(Flushed(before) + Flushed(after)) <==> SymRun(before).0.start < WindowOf(after[0])
  {
    hide *;
    LastWindow(before);
    FirstWindow(after);
    FlushedIncreasing(before);
    FlushedIncreasing(after);
    Joined(Flushed(before), Flushed(after));
  }

  lemma FlushedIncreasing(bars: seq<MinuteBar>)
    ensures Increasing(Flushed(bars))
  {
    hide Flushed, NonLate, Increasing;
    StreamGroups(bars);
  }

  lemma Joined(x: seq<FiveMinBar>, y: seq<FiveMinBar>)
    requires Increasing(x) && Increasing(y) && x != [] && y != []
    ensures Increasing(x + y) <==> x[|x| - 1].timestamp < y[0].timestamp
  {
    var z, n := x + y, |x|;
    assert z[n - 1] == x[n - 1] && z[n] == y[0];
    if x[n - 1].timestamp < y[0].timestamp {
      forall i, j | 0 <= i < j < |z| ensures z[i].timestamp < z[j].timestamp {
        if i < n && j >= n {
          assert z[i] == x[i] && z[j] == y[j - n];
          assert x[i].timestamp <= x[n - 1].timestamp && y[0].timestamp <= y[j - n].timestamp;
        }
      }
    }
  }

  // ---------------------------------------------------------------- many symbols

  function Project(stream: seq<MinuteBar>, sym: string): seq<MinuteBar> {
    if stream == [] then []
    else
      var b := stream[|stream| - 1];
      var front := Project(stream[..|stream| - 1], sym);
      if b.symbol == sym then front + [b] else front
  }

  function ProjectOut(out: seq<FiveMinBar>, sym: string): seq<FiveMinBar> {
    if out == [] then []
    else
      var f := out[|out| - 1];
      var front := ProjectOut(out[..|out| - 1], sym);
      if f.symbol == sym then front + [f] else front
  }

  /** What a stream of bars of any symbols makes the aggregator emit. */
  function Emission(stream: seq<MinuteBar>): seq<FiveMinBar> {
    if stream == [] then []
    else
      var n := |stream| - 1;
      var b := stream[n];
      Emission(stream[..n]) + SymStep(SymRun(Project(stream[..n], b.symbol)).0, b).1
  }

  lemma ProjectAppend(stream: seq<MinuteBar>, b: MinuteBar, sym: string)
    ensures Project(stream + [b], sym) == if b.symbol == sym then Project(stream, sym) + [b] else Project(stream, sym)
  {
    assert (stream + [b])[..|stream|] == stream;
  }

  lemma {:induction false} ProjectOutJoin(x: seq<FiveMinBar>, y: seq<FiveMinBar>, sym: string)
    ensures ProjectOut(x + y, sym) == ProjectOut(x, sym) + ProjectOut(y, sym)
  {
    if y == [] {
      assert x + y == x;
    } else {
      var n := |y| - 1;
      assert (x + y)[..|x + y| - 1] == x + y[..n];
      ProjectOutJoin(x, y[..n], sym);
    }
  }

  ghost predicate OfSymbol(o: Open, sym: string) {
    o.Window? ==> o.bars != [] && forall b :: b in o.bars ==> b.symbol == sym
  }

  lemma {:induction false} RunOfSymbol(stream: seq<MinuteBar>, sym: string)
    ensures OfSymbol(SymRun(Project(stream, sym)).0, sym)
  {
    if stream != [] {
      var n := |stream| - 1;
      RunOfSymbol(stream[..n], sym);
      RunAppend(Project(stream[..n], sym), stream[n]);
    }
  }

  lemma RunAppend(bars: seq<MinuteBar>, b: MinuteBar)
    ensures SymRun(bars + [b]) == (SymStep(SymRun(bars).0, b).0, SymRun(bars).1 + SymStep(SymRun(bars).0, b).1)
  {
    assert (bars + [b])[..|bars|] == bars;
  }

  lemma EmitOfSymbol(o: Open, sym: string, other: string)
    requires OfSymbol(o, sym)
    ensures ProjectOut(Emit(o), other) == if other == sym then Emit(o) else []
  {
    if Emit(o) != [] {
      assert o.bars[0] in o.bars;
      assert Emit(o)[..0] == [];
    }
  }

  lemma StepEmits(o: Open, b: MinuteBar, sym: string)
    requires OfSymbol(o, b.symbol)
    ensures ProjectOut(SymStep(o, b).1, sym) == if sym == b.symbol then SymStep(o, b).1 else []
  {
    hide ProjectOut, WindowOf;
    EmitOfSymbol(o, b.symbol, sym);
    EmitOfSymbol(NoWindow, b.symbol, sym);
  }

  /** Whatever way the symbols are interleaved, each one's part of the output is
      what its own bars alone produce. */
  lemma {:induction false} Interleaving(stream: seq<MinuteBar>, sym: string)
    ensures ProjectOut(Emission(stream), sym) == SymRun(Project(stream, sym)).1
  {
    if stream != [] {
      var n := |stream| - 1;
      var b := stream[n];
      Interleaving(stream[..n], sym);
      var o := SymRun(Project(stream[..n], b.symbol)).0;
      RunOfSymbol(stream[..n], b.symbol);
      ProjectOutJoin(Emission(stream[..n]), SymStep(o, b).1, sym);
      RunAppend(Project(stream[..n], sym), b);
      assert SymRun(Project(stream[..n], sym)).1 + [] == SymRun(Project(stream[..n], sym)).1;
      StepEmits(o, b, sym);
      hide SymRun, SymStep, ProjectOut, Emit;
    }
  }

  // ---------------------------------------------------------------- the object

  class BarAggregator {
    var buffers: map<string, seq<MinuteBar>>
    var windowStart: map<string, int>
    var emitted: seq<FiveMinBar>        // everything handed to the callback
    ghost var history: seq<MinuteBar>   // the bars since the last flush
    ghost var flushedAt: nat            // how much had been emitted by then

    function Of(sym: string): Open
      reads this`buffers, this`windowStart
    {
      if sym in windowStart && sym in buffers then Window(windowStart[sym], buffers[sym]) else NoWindow
    }

    ghost predicate Valid()
      reads this
    {
      && buffers.Keys == windowStart.Keys
      && flushedAt <= |emitted| && emitted[flushedAt..] == Emission(history)
      && forall sym :: Of(sym) == SymRun(Project(history, sym)).0
    }

    constructor ()
      ensures Valid() && history == [] && emitted == []
    {
      buffers, windowStart, emitted, history, flushedAt := map[], map[], [], [], 0;
    }

    /** `on_minute_bar`. */
    method OnMinuteBar(bar: MinuteBar)
      requires Valid()
      modifies this
      ensures Valid() && history == old(history) + [bar] && flushedAt == old(flushedAt)
      ensures emitted == old(emitted) + SymStep(old(Of(bar.symbol)), bar).1
      ensures forall sym :: Of(sym) == if sym == bar.symbol then SymStep(old(Of(sym)), bar).0 else old(Of(sym))
    {
      hide SymStep, SymRun, Project, Emission;
      RunOfSymbol(history, bar.symbol);
      HistoryGrows(history, bar);
      Place(bar);
      history := history + [bar];
    }

    /** The code of `on_minute_bar`. */
    method Place(bar: MinuteBar)
      requires buffers.Keys == windowStart.Keys && OfSymbol(Of(bar.symbol), bar.symbol)
      modifies this`buffers, this`windowStart, this`emitted
      ensures buffers.Keys == windowStart.Keys
      ensures emitted == old(emitted) + SymStep(old(Of(bar.symbol)), bar).1
      ensures forall sym :: Of(sym) == if sym == bar.symbol then SymStep(old(Of(sym)), bar).0 else old(Of(sym))
    {
      var sym := bar.symbol;
      var target := WindowOf(bar);
      if sym !in windowStart {
        buffers := buffers[sym := [bar]];
        windowStart := windowStart[sym := target];
      } else if target == windowStart[sym] {
        buffers := buffers[sym := buffers[sym] + [bar]];
      } else if target > windowStart[sym] {
        EmitWindow(sym, windowStart[sym]);
        buffers := buffers[sym := [bar]];
        windowStart := windowStart[sym := target];
      }
    }

    /** `_emit`: hands over the window unless its buffer is empty. */
    method EmitWindow(sym: string, start: int)
      requires sym in buffers
      modifies this`emitted
      ensures emitted == old(emitted) + Emit(Window(start, buffers[sym]))
    {
      var bars := buffers[sym];
      if bars != [] {
        emitted := emitted + [Fold(bars, start)];
      }
    }

    /** `flush_all`: afterwards each symbol's output since the previous flush is
        the grouping of its non-late bars, and nothing is open. */
    method FlushAll()
      requires Valid()
      modifies this
      ensures Valid() && history == [] && flushedAt == |emitted| && windowStart == map[]
      ensures old(emitted) <= emitted && old(flushedAt) <= |emitted|
      ensures forall sym :: ProjectOut(emitted[old(flushedAt)..], sym) == Flushed(Project(old(history), sym))
      ensures forall sym :: IsGrouping(ProjectOut(emitted[old(flushedAt)..], sym), NonLate(Project(old(history), sym)))
    {
      hide Emission, Project, ProjectOut, SymRun, Emit, Flushed, IsGrouping, NonLate, OfSymbol;
      ghost var base, tail := emitted, emitted[flushedAt..];
      forall sym ensures OfSymbol(Of(sym), sym) { RunOfSymbol(history, sym); }
      EmitOpenWindows();
      assert emitted[flushedAt..] == tail + emitted[|base|..];
      AllFlushed(history, emitted[|base|..]);
      buffers, windowStart := map[], map[];
      history, flushedAt := [], |emitted|;
      NothingSeen();
    }

    /** The loop of `flush_all`, in any order of the symbols. */
    method EmitOpenWindows()
      requires buffers.Keys == windowStart.Keys && forall sym :: OfSymbol(Of(sym), sym)
      modifies this`emitted
      ensures old(emitted) <= emitted
      ensures forall sym :: ProjectOut(emitted[|old(emitted)|..], sym) == Emit(Of(sym))
    {
      hide *;
      ghost var base := emitted;
      var keys := windowStart.Keys;
      NothingOwed(emitted[|base|..], keys);
      while keys != {}
        invariant keys <= windowStart.Keys && base <= emitted
        invariant Owed(emitted[|base|..], keys)
        decreases keys
      {
        var sym :| sym in keys;
        ghost var sofar := emitted[|base|..];
        OfIs(sym);
        EmitWindow(sym, windowStart[sym]);
        assert emitted[|base|..] == sofar + Emit(Of(sym));
        OwedStep(sofar, keys, sym);
        keys := keys - {sym};
      }
      OwedAll(emitted[|base|..]);
    }

    lemma NothingOwed(tail: seq<FiveMinBar>, keys: set<string>)
      requires tail == [] && keys == windowStart.Keys
      ensures Owed(tail, keys)
    {
    }

    lemma OwedAll(tail: seq<FiveMinBar>)
      requires Owed(tail, {})
      ensures forall sym :: ProjectOut(tail, sym) == Emit(Of(sym))
    {
    }

    /** `tail` holds the open windows of the symbols outside `keys`, no others. */
    ghost predicate Owed(tail: seq<FiveMinBar>, keys: set<string>)
      reads this`buffers, this`windowStart
    {
      forall sym :: ProjectOut(tail, sym) == if sym in keys then [] else Emit(Of(sym))
    }

    lemma OwedStep(tail: seq<FiveMinBar>, keys: set<string>, sym: string)
      requires Owed(tail, keys) && sym in keys && OfSymbol(Of(sym), sym)
      ensures Owed(tail + Emit(Of(sym)), keys - {sym})
    {
      hide Of, Emit, OfSymbol;
      forall other
        ensures ProjectOut(tail + Emit(Of(sym)), other) == if other in keys - {sym} then [] else Emit(Of(other))
      {
        EmitOfSymbol(Of(sym), sym, other);
        ProjectOutJoin(tail, Emit(Of(sym)), other);
      }
    }

    lemma OfIs(sym: string)
      requires sym in windowStart && sym in buffers
      ensures Of(sym) == Window(windowStart[sym], buffers[sym])
    {
    }
  }

  lemma FlushedHistory(history: seq<MinuteBar>, more: seq<FiveMinBar>, sym: string)
    requires ProjectOut(more, sym) == Emit(SymRun(Project(history, sym)).0)
    ensures ProjectOut(Emission(history) + more, sym) == Flushed(Project(history, sym))
    ensures IsGrouping(ProjectOut(Emission(history) + more, sym), NonLate(Project(history, sym)))
  {
    Interleaving(history, sym);
    ProjectOutJoin(Emission(history), more, sym);
    StreamGroups(Project(history, sym));
  }

  lemma AllFlushed(history: seq<MinuteBar>, more: seq<FiveMinBar>)
    requires forall sym :: ProjectOut(more, sym) == Emit(SymRun(Project(history, sym)).0)
    ensures forall sym :: ProjectOut(Emission(history) + more, sym) == Flushed(Project(history, sym))
    ensures forall sym :: IsGrouping(ProjectOut(Emission(history) + more, sym), NonLate(Project(history, sym)))
  {
    hide *;
    forall sym
      ensures ProjectOut(Emission(history) + more, sym) == Flushed(Project(history, sym))
      ensures IsGrouping(ProjectOut(Emission(history) + more, sym), NonLate(Project(history, sym)))
    {
      FlushedHistory(history, more, sym);
    }
  }

  lemma NothingSeen()
    ensures Emission([]) == [] && forall sym :: SymRun(Project([], sym)).0 == NoWindow
  {
  }

  lemma HistoryGrows(history: seq<MinuteBar>, bar: MinuteBar)
    ensures Emission(history + [bar]) == Emission(history) + SymStep(SymRun(Project(history, bar.symbol)).0, bar).1
    ensures forall sym :: SymRun(Project(history + [bar], sym)).0 ==
              if sym == bar.symbol then SymStep(SymRun(Project(history, sym)).0, bar).0
              else SymRun(Project(history, sym)).0
  {
    assert (history + [bar])[..|history|] == history;
    forall sym
      ensures SymRun(Project(history + [bar], sym)).0 ==
              if sym == bar.symbol then SymStep(SymRun(Project(history, sym)).0, bar).0
              else SymRun(Project(history, sym)).0
    {
      ProjectAppend(history, bar, sym);
      RunAppend(Project(history, sym), bar);
    }
  }
}
