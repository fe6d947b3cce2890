/** Wall detection in one book snapshot and the anti-spoofing scanner
    (analysis/futures_walls.py). The reference for the scanner is the whole
    sequence of detections it was fed; it keeps only a window of price sets and
    a pruned index. Both sides run the same code on their own fields.
  */
module FuturesWalls {
  import opened Sets
  import opened Numbers
  import opened Options
  import opened Sequences

  datatype BookLevel = BookLevel(price: real, size: int)

  datatype Snapshot = Snapshot(bids: seq<BookLevel>, asks: seq<BookLevel>)

  datatype Side = Support | Resistance

  datatype Wall = Wall(side: Side, price: real, size: int, distancePct: real)

  // ---------------------------------------------------------------- sorting by size

  predicate AtLeastAsLarge(a: Wall, b: Wall) { a.size >= b.size }

  function PriceOf(w: Wall): real { w.price }

  /** The largest `n`: sorted by size descending (equal sizes keep their order), then cut. */
  function Top(s: seq<Wall>, n: nat): seq<Wall> {
    var sorted := Sort(s, AtLeastAsLarge);
    if |sorted| <= n then sorted else sorted[..n]
  }

  /** The walls kept are among the given ones, largest first, as many as asked
      for, and nothing left out is larger than anything kept. */
  lemma TopIsLargest(s: seq<Wall>, n: nat)
    ensures var t := Top(s, n);
            && Ordered(t, AtLeastAsLarge)
            && |t| == (if |s| <= n then |s| else n)
            && multiset(t) <= multiset(s)
            && forall w, i :: w in multiset(s) - multiset(t) && 0 <= i < |t| ==> w.size <= t[i].size
  {
    SortPermutes(s, AtLeastAsLarge);
    SortOrders(s, AtLeastAsLarge);
    var sorted := Sort(s, AtLeastAsLarge);
    CutLargest(sorted, if |sorted| <= n then |sorted| else n);
    assert sorted[..|sorted|] == sorted;
  }

  lemma CutLargest(sorted: seq<Wall>, n: nat)
    requires Ordered(sorted, AtLeastAsLarge) && n <= |sorted|
    ensures Ordered(sorted[..n], AtLeastAsLarge) && multiset(sorted[..n]) <= multiset(sorted)
    ensures forall w, i :: w in multiset(sorted) - multiset(sorted[..n]) && 0 <= i < n ==> w.size <= sorted[i].size
  {
    Cut(sorted, n);
    forall w, i | w in multiset(sorted) - multiset(sorted[..n]) && 0 <= i < n ensures w.size <= sorted[i].size {
      var j :| 0 <= j < |sorted[n..]| && sorted[n..][j] == w;
      assert AtLeastAsLarge(sorted[i], sorted[n + j]);
    }
  }

  lemma Cut(s: seq<Wall>, n: nat)
    requires n <= |s|
    ensures multiset(s[..n]) <= multiset(s)
    ensures forall w :: w in multiset(s) - multiset(s[..n]) ==> w in s[n..]
  {
    assert s == s[..n] + s[n..];
  }

  // ---------------------------------------------------------------- detection

  datatype Settings = Settings(
    windowSize: nat, minPersistence: int, maxDistancePct: real, topN: nat, minSizeMultiple: real)

  predicate AtMost(x: int, y: int) { x <= y }

  function Sizes(levels: seq<BookLevel>): seq<int> {
    seq(|levels|, i requires 0 <= i < |levels| => levels[i].size)
  }

  /** The smallest size that counts as a wall: a multiple of the upper median. */
  function Threshold(sizes: seq<int>, multiple: real): int
    requires sizes != []
  {
    SortPermutes(sizes, AtMost);
    var median := Sort(sizes, AtMost)[|sizes| / 2];
    var t := Truncate(median as real * multiple);
    if t > 1 then t else 1
  }

  function Distance(l: BookLevel, mid: real): real
    requires mid != 0.0
  {
    (l.price - mid) / mid * 100.0
  }

  /** Whether a level is a wall; only the support side takes the absolute distance. */
  predicate Qualifies(side: Side, l: BookLevel, mid: real, threshold: int, maxDistance: real)
    requires mid != 0.0
  {
    && (if side == Support then Abs(Distance(l, mid)) else Distance(l, mid)) <= maxDistance
    && l.size >= threshold
  }

  function WallsAmong(side: Side, levels: seq<BookLevel>, mid: real, threshold: int, maxDistance: real): seq<Wall>
    requires mid != 0.0
  {
    if levels == [] then []
    else
      var l := levels[|levels| - 1];
      var front := WallsAmong(side, levels[..|levels| - 1], mid, threshold, maxDistance);
      if Qualifies(side, l, mid, threshold, maxDistance) then front + [Wall(side, l.price, l.size, Distance(l, mid))]
      else front
  }

  function MidPrice(s: Snapshot): Option<real> {
    if s.bids != [] && s.asks != [] then Some((s.bids[0].price + s.asks[0].price) / 2.0) else None
  }

  function Detect(s: Snapshot, side: Side, p: Settings): seq<Wall> {
    var mid := MidPrice(s);
    if mid.None? || mid.value <= 0.0 then []
    else
      var threshold := Threshold(Sizes(s.bids) + Sizes(s.asks), p.minSizeMultiple);
      var levels := if side == Support then s.bids else s.asks;
      Top(WallsAmong(side, levels, mid.value, threshold, p.maxDistancePct), p.topN)
  }

  /** The scan of one side of the book in `detect_walls`. */
  method CollectWalls(side: Side, levels: seq<BookLevel>, mid: real, threshold: int, maxDistance: real)
    returns (walls: seq<Wall>)
    requires mid != 0.0
    ensures walls == WallsAmong(side, levels, mid, threshold, maxDistance)
  {
    walls := [];
    for i := 0 to |levels|
      invariant walls == WallsAmong(side, levels[..i], mid, threshold, maxDistance)
    {
      assert levels[..i + 1][..i] == levels[..i];
      if Qualifies(side, levels[i], mid, threshold, maxDistance) {
        walls := walls + [Wall(side, levels[i].price, levels[i].size, Distance(levels[i], mid))];
      }
    }
    assert levels[..|levels|] == levels;
  }

  method DetectWalls(s: Snapshot, p: Settings) returns (support: seq<Wall>, resistance: seq<Wall>)
    ensures support == Detect(s, Support, p) && resistance == Detect(s, Resistance, p)
  {
    var mid := MidPrice(s);
    if mid.None? || mid.value <= 0.0 {
      return [], [];
    }
    var threshold := Threshold(Sizes(s.bids) + Sizes(s.asks), p.minSizeMultiple);
    support := CollectWalls(Support, s.bids, mid.value, threshold, p.maxDistancePct);
    resistance := CollectWalls(Resistance, s.asks, mid.value, threshold, p.maxDistancePct);
    support, resistance := Top(support, p.topN), Top(resistance, p.topN);
  }

  // ---------------------------------------------------------------- one side of the scanner

  function Prices(walls: seq<Wall>): set<real> { set w | w in walls :: w.price }

  function Union(history: seq<set<real>>): set<real> {
    if history == [] then {} else Union(history[..|history| - 1]) + history[|history| - 1]
  }

  /** The last wall of the list at this price. */
  function LastAt(walls: seq<Wall>, price: real): Option<Wall> {
    if walls == [] then None
    else if walls[|walls| - 1].price == price then Some(walls[|walls| - 1])
    else LastAt(walls[..|walls| - 1], price)
  }

  /** The most recent detection of this price in the whole past. */
  function MostRecent(detections: seq<seq<Wall>>, price: real): Option<Wall> {
    if detections == [] then None
    else
      var n := |detections| - 1;
      var w := LastAt(detections[n], price);
      if w.Some? then w else MostRecent(detections[..n], price)
  }

  /** The last `n` of the detections. */
  function Window(detections: seq<seq<Wall>>, n: nat): seq<seq<Wall>> {
    if |detections| <= n then detections else detections[|detections| - n..]
  }

  function PriceSets(detections: seq<seq<Wall>>): seq<set<real>> {
    seq(|detections|, i requires 0 <= i < |detections| => Prices(detections[i]))
  }

  /** `deque(maxlen=n).append(x)`. */
  function Push(history: seq<set<real>>, x: set<real>, n: nat): seq<set<real>> {
    var h := history + [x];
    if |h| <= n then h else h[|h| - n..]
  }

  function Overlay(latest: map<real, Wall>, walls: seq<Wall>): map<real, Wall> {
    if walls == [] then latest
    else
      var w := walls[|walls| - 1];
      Overlay(latest, walls[..|walls| - 1])[w.price := w]
  }

  /** Only the entries whose price is still active. */
  function Prune<T, U>(latest: map<T, U>, active: set<T>): map<T, U> {
    map price | price in latest && price in active :: latest[price]
  }

  /** The kept state is the one recomputed from the last `n` detections. */
  ghost predicate Agrees(history: seq<set<real>>, latest: map<real, Wall>, detections: seq<seq<Wall>>, n: nat) {
    && history == PriceSets(Window(detections, n))
    && latest.Keys == Union(history)
    && forall price :: price in latest ==> MostRecent(detections, price) == Some(latest[price])
  }

  lemma {:induction false} LastAtPrices(walls: seq<Wall>, price: real)
    ensures LastAt(walls, price).Some? <==> price in Prices(walls)
    ensures LastAt(walls, price).Some? ==>
              LastAt(walls, price).value in walls && LastAt(walls, price).value.price == price
  {
    if walls != [] {
      var n := |walls| - 1;
      LastAtPrices(walls[..n], price);
      assert walls == walls[..n] + [walls[n]];
      assert Prices(walls) == Prices(walls[..n]) + {walls[n].price};
    }
  }

  lemma {:induction false} MostRecentPrice(detections: seq<seq<Wall>>, price: real)
    ensures MostRecent(detections, price).Some? ==> MostRecent(detections, price).value.price == price
  {
    if detections != [] {
      var n := |detections| - 1;
      LastAtPrices(detections[n], price);
      MostRecentPrice(detections[..n], price);
    }
  }

  lemma {:induction false} OverlayIs(latest: map<real, Wall>, walls: seq<Wall>)
    ensures Overlay(latest, walls).Keys == latest.Keys + Prices(walls)
    ensures forall price :: price in Overlay(latest, walls) ==>
              Overlay(latest, walls)[price] ==
              (if LastAt(walls, price).Some? then LastAt(walls, price).value
               else if price in latest then latest[price] else Overlay(latest, walls)[price])
  {
    if walls != [] {
      var n := |walls| - 1;
      OverlayIs(latest, walls[..n]);
      assert walls == walls[..n] + [walls[n]];
      assert Prices(walls) == Prices(walls[..n]) + {walls[n].price};
    }
  }

  lemma {:induction false} UnionMember(history: seq<set<real>>, price: real)
    ensures price in Union(history) <==> exists i :: 0 <= i < |history| && price in history[i]
  {
    if history != [] {
      var n := |history| - 1;
      UnionMember(history[..n], price);
      assert forall i :: 0 <= i < n ==> history[..n][i] == history[i];
    }
  }

  lemma PushIsWindow(detections: seq<seq<Wall>>, walls: seq<Wall>, n: nat)
    ensures Push(PriceSets(Window(detections, n)), Prices(walls), n) == PriceSets(Window(detections + [walls], n))
  {
  }

  lemma PushUnion(history: seq<set<real>>, x: set<real>, n: nat)
    ensures Union(Push(history, x, n)) <= Union(history) + x
  {
    forall price | price in Union(Push(history, x, n)) ensures price in Union(history) + x {
      UnionMember(Push(history, x, n), price);
      UnionMember(history, price);
      var i :| 0 <= i < |Push(history, x, n)| && price in Push(history, x, n)[i];
      var h := history + [x];
      var k := if |h| <= n then i else i + |h| - n;
      assert Push(history, x, n)[i] == h[k];
      if k < |history| { assert price in history[k]; }
    }
  }

  /** One update keeps the agreement: the index after overlaying and pruning is
      the one recomputed from the detections. */
  lemma UpdateAgrees(history: seq<set<real>>, latest: map<real, Wall>, detections: seq<seq<Wall>>, walls: seq<Wall>,
                     n: nat)
    requires Agrees(history, latest, detections, n)
    ensures var h := Push(history, Prices(walls), n);
            Agrees(h, Prune(Overlay(latest, walls), Union(h)), detections + [walls], n)
  {
    var h := Push(history, Prices(walls), n);
    var overlaid := Overlay(latest, walls);
    PushIsWindow(detections, walls, n);
    PushUnion(history, Prices(walls), n);
    OverlayIs(latest, walls);
    assert (detections + [walls])[..|detections|] == detections;
    forall price | price in overlaid && price in Union(h)
      ensures MostRecent(detections + [walls], price) == Some(overlaid[price])
    {
      LastAtPrices(walls, price);
    }
  }

  // ---------------------------------------------------------------- persistence

  function CountOf(history: seq<set<real>>, price: real): nat {
    if history == [] then 0
    else CountOf(history[..|history| - 1], price) + (if price in history[|history| - 1] then 1 else 0)
  }

  /** The prices seen in enough of the last detections. */
  function PersistentPrices(history: seq<set<real>>, minPersistence: int): set<real> {
    set price | price in Union(history) && CountOf(history, price) >= minPersistence
  }

  /** The walls reported for one side: distinct prices among the persistent
      ones, each with its most recent detection, largest first, as many as there
      are up to `topN`, and none left out is larger than one reported. */
  ghost predicate IsReport(report: seq<Wall>, detections: seq<seq<Wall>>, p: Settings) {
    var window := PriceSets(Window(detections, p.windowSize));
    var prices := PersistentPrices(window, p.minPersistence);
    if |window| < p.minPersistence then report == []
    else
      && Ordered(report, AtLeastAsLarge)
      && Distinct(report, PriceOf)
      && (forall i :: 0 <= i < |report| ==>
            report[i].price in prices && MostRecent(detections, report[i].price) == Some(report[i]))
      && |report| == (if |prices| <= p.topN then |prices| else p.topN)
      && (forall price, i :: price in prices && price !in Prices(report) && 0 <= i < |report| ==>
            MostRecent(detections, price).Some? && MostRecent(detections, price).value.size <= report[i].size)
  }

  /** The candidates of `persistent_walls` before they are ranked. */
  ghost predicate Candidates(found: seq<Wall>, prices: set<real>, latest: map<real, Wall>)
    requires prices <= latest.Keys
  {
    && Prices(found) == prices
    && |found| == |prices|
    && Distinct(found, PriceOf)
    && (forall i :: 0 <= i < |found| ==> found[i].price in latest && found[i] == latest[found[i].price])
  }

  lemma RankedIsReport(found: seq<Wall>, history: seq<set<real>>, latest: map<real, Wall>,
                       detections: seq<seq<Wall>>, p: Settings)
    requires Agrees(history, latest, detections, p.windowSize) && |history| >= p.minPersistence
    requires PersistentPrices(history, p.minPersistence) <= latest.Keys
    requires Candidates(found, PersistentPrices(history, p.minPersistence), latest)
    ensures IsReport(Top(found, p.topN), detections, p)
  {
    var prices := PersistentPrices(history, p.minPersistence);
    var t := Top(found, p.topN);
    TopIsLargest(found, p.topN);
    SelectionDistinct(t, found, PriceOf);
    forall i | 0 <= i < |t| ensures t[i].price in prices && MostRecent(detections, t[i].price) == Some(t[i]) {
      assert t[i] in multiset(t);
      assert t[i] in found;
      assert t[i].price in Prices(found);
    }
    forall price, i | price in prices && price !in Prices(t) && 0 <= i < |t|
      ensures MostRecent(detections, price).Some? && MostRecent(detections, price).value.size <= t[i].size
    {
      assert price in Prices(found);
      var w :| w in found && w.price == price;
      assert w !in t;
      assert w in multiset(found) && w !in multiset(t);
      assert w in multiset(found) - multiset(t);
    }
  }

  // ---------------------------------------------------------------- the object

  method CountPrices(history: seq<set<real>>) returns (counts: map<real, nat>)
    ensures counts.Keys == Union(history)
    ensures forall price :: price in counts ==> counts[price] == CountOf(history, price)
  {
    counts := map[];
    for i := 0 to |history|
      invariant counts.Keys == Union(history[..i])
      invariant forall price :: price in counts ==> counts[price] == CountOf(history[..i], price)
    {
      assert history[..i + 1][..i] == history[..i];
      forall price | price !in counts ensures CountOf(history[..i], price) == 0 { CountNone(history[..i], price); }
      var seen := history[i];
      counts := map price | price in counts.Keys + seen ::
        (if price in counts then counts[price] else 0) + (if price in seen then 1 else 0);
    }
    assert history[..|history|] == history;
  }

  lemma {:induction false} CountNone(history: seq<set<real>>, price: real)
    requires price !in Union(history)
    ensures CountOf(history, price) == 0
  {
    if history != [] { CountNone(history[..|history| - 1], price); }
  }

  /** One side of `persistent_walls`, after the length test. */
  method RankPersistent(history: seq<set<real>>, latest: map<real, Wall>, ghost detections: seq<seq<Wall>>, p: Settings)
    returns (report: seq<Wall>)
    requires Agrees(history, latest, detections, p.windowSize) && |history| >= p.minPersistence
    ensures IsReport(report, detections, p)
  {
    var counts := CountPrices(history);
    var found: seq<Wall> := [];
    var todo := counts.Keys;
    ghost var done: set<real> := {};
    while todo != {}
      invariant todo <= counts.Keys
      invariant done == (set price | price in counts.Keys - todo && counts[price] >= p.minPersistence)
      invariant done <= latest.Keys && Candidates(found, done, latest)
      decreases todo
    {
      var price := Pick(todo);
      todo := todo - {price};
      if counts[price] >= p.minPersistence && price in latest {
        MostRecentPrice(detections, price);
        CandidatesGrow(found, done, latest, price);
        found := found + [latest[price]];
        done := done + {price};
      }
    }
    assert done == PersistentPrices(history, p.minPersistence);
    RankedIsReport(found, history, latest, detections, p);
    report := Top(found, p.topN);
  }

  lemma CandidatesGrow(found: seq<Wall>, prices: set<real>, latest: map<real, Wall>, price: real)
    requires prices <= latest.Keys && Candidates(found, prices, latest)
    requires price in latest && price !in prices && latest[price].price == price
    ensures Candidates(found + [latest[price]], prices + {price}, latest)
  {
    var more := found + [latest[price]];
    assert forall i :: 0 <= i < |found| ==> found[i].price in Prices(found);
    assert Prices(more) == Prices(found) + {price} by {
      assert latest[price] in more;
      assert forall w :: w in more <==> w in found || w == latest[price];
    }
  }

  class PersistentWallScanner {
    const settings: Settings
    var supportHistory: seq<set<real>>
    var resistanceHistory: seq<set<real>>
    var latestSupport: map<real, Wall>
    var latestResistance: map<real, Wall>
    ghost var supports: seq<seq<Wall>>       // every detection so far
    ghost var resistances: seq<seq<Wall>>

    ghost predicate Valid()
      reads this
    {
      && Agrees(supportHistory, latestSupport, supports, settings.windowSize)
      && Agrees(resistanceHistory, latestResistance, resistances, settings.windowSize)
      && |supports| == |resistances|
    }

    constructor (settings: Settings)
      ensures Valid() && this.settings == settings && supports == [] && resistances == []
    {
      this.settings := settings;
      supportHistory, resistanceHistory, latestSupport, latestResistance := [], [], map[], map[];
      supports, resistances := [], [];
    }

    method Update(snapshot: Snapshot)
      requires Valid()
      modifies this
      ensures Valid()
      ensures supports == old(supports) + [Detect(snapshot, Support, settings)]
      ensures resistances == old(resistances) + [Detect(snapshot, Resistance, settings)]
    {
      var support, resistance := DetectWalls(snapshot, settings);
      UpdateAgrees(supportHistory, latestSupport, supports, support, settings.windowSize);
      UpdateAgrees(resistanceHistory, latestResistance, resistances, resistance, settings.windowSize);
      hide Agrees, Overlay, Push, Detect, Prices, Prune;
      supportHistory := Push(supportHistory, Prices(support), settings.windowSize);
      resistanceHistory := Push(resistanceHistory, Prices(resistance), settings.windowSize);
      latestSupport := OverlayAndPrune(latestSupport, support, supportHistory);
      latestResistance := OverlayAndPrune(latestResistance, resistance, resistanceHistory);
      supports, resistances := supports + [support], resistances + [resistance];
    }

    method PersistentWalls() returns (support: seq<Wall>, resistance: seq<Wall>)
      requires Valid()
      ensures IsReport(support, supports, settings) && IsReport(resistance, resistances, settings)
    {
      if |supportHistory| < settings.minPersistence {
        return [], [];
      }
      support := RankPersistent(supportHistory, latestSupport, supports, settings);
      resistance := RankPersistent(resistanceHistory, latestResistance, resistances, settings);
    }
  }

  /** The second loop of `update` over one index: prices no longer in the window go. */
  method PruneStale<T(==), U>(latest: map<T, U>, active: set<T>) returns (kept: map<T, U>)
    ensures kept == Prune(latest, active)
  {
    kept := latest;
    var todo := latest.Keys;
    while todo != {}
      invariant todo <= kept.Keys <= latest.Keys
      invariant forall x :: x in latest && (x in active || x in todo) ==> x in kept
      invariant forall x :: x in kept && x !in todo ==> x in active
      invariant forall x :: x in kept ==> kept[x] == latest[x]
      decreases todo
    {
      var x :| x in todo;
      todo := todo - {x};
      if x !in active {
        kept := kept - {x};
      }
    }
  }

  /** Both loops: newest walls in, stale prices out. */
  method OverlayAndPrune(latest: map<real, Wall>, walls: seq<Wall>, history: seq<set<real>>)
    returns (kept: map<real, Wall>)
    ensures kept == Prune(Overlay(latest, walls), Union(history))
  {
    kept := latest;
    for i := 0 to |walls|
      invariant kept == Overlay(latest, walls[..i])
    {
      assert walls[..i + 1][..i] == walls[..i];
      kept := kept[walls[i].price := walls[i]];
    }
    assert walls[..|walls|] == walls;
    kept := PruneStale(kept, Union(history));
  }
}
