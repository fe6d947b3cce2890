/** What a detected wall is in terms of the order book (analysis/futures_walls.py).
  */
module BookWalls {
  import opened FuturesWalls
  import opened Numbers
  import opened Options
  import opened Sequences

  function Levels(s: Snapshot, side: Side): seq<BookLevel> { if side == Support then s.bids else s.asks }

  /** Halfway between the best bid and the best ask. */
  function BookMid(s: Snapshot): real
    requires s.bids != [] && s.asks != []
  {
    (s.bids[0].price + s.asks[0].price) / 2.0
  }

  /** Within `pct` percent of the mid price: a bid on either side of it, an ask
      unless it is further above. */
  predicate Near(side: Side, price: real, mid: real, pct: real) {
    && (price - mid) * 100.0 <= pct * mid
    && (side == Support ==> (mid - price) * 100.0 <= pct * mid)
  }

  predicate IsWallOf(w: Wall, side: Side, l: BookLevel, mid: real)
    requires mid != 0.0
  {
    w == Wall(side, l.price, l.size, (l.price - mid) / mid * 100.0)
  }

  lemma PercentOf(price: real, mid: real, pct: real)
    requires mid > 0.0
    ensures (price - mid) / mid * 100.0 <= pct <==> (price - mid) * 100.0 <= pct * mid
    ensures (price - mid) / mid * 100.0 >= -pct <==> (mid - price) * 100.0 <= pct * mid
  {
    var q := (price - mid) / mid * 100.0;
    assert (price - mid) / mid * mid == price - mid;
    assert q * mid == (price - mid) * 100.0;
    assert (pct - q) * mid == pct * mid - (price - mid) * 100.0;
    assert (pct + q) * mid == pct * mid + (price - mid) * 100.0;
    SignOf(pct - q, mid);
    SignOf(pct + q, mid);
  }

  lemma SignOf(x: real, y: real)
    requires y > 0.0
    ensures x >= 0.0 <==> x * y >= 0.0
  {
    if x < 0.0 { assert (-x) * y > 0.0; }
  }

  lemma QualifiesMeans(side: Side, l: BookLevel, mid: real, threshold: int, pct: real)
    requires mid > 0.0
    ensures Qualifies(side, l, mid, threshold, pct) <==> Near(side, l.price, mid, pct) && l.size >= threshold
  {
    PercentOf(l.price, mid, pct);
  }

  /** The candidates of a side are exactly its levels that are near enough and at
      least as large as the threshold. */
  lemma {:induction false} CandidatesExact(
    side: Side, levels: seq<BookLevel>, mid: real, threshold: int, pct: real, w: Wall)
    requires mid > 0.0
    ensures w in WallsAmong(side, levels, mid, threshold, pct) <==>
            exists l :: l in levels && IsWallOf(w, side, l, mid) && Near(side, l.price, mid, pct) && l.size >= threshold
  {
    if levels != [] {
      var n := |levels| - 1;
      assert levels == levels[..n] + [levels[n]];
      CandidatesExact(side, levels[..n], mid, threshold, pct, w);
      QualifiesMeans(side, levels[n], mid, threshold, pct);
      hide Qualifies, Near;
    }
  }

  /** Raising the size of a level does not remove it from the candidates. */
  lemma RaisedStays(side: Side, levels: seq<BookLevel>, mid: real, threshold: int, pct: real, i: nat, size: int)
    requires mid > 0.0 && i < |levels| && size >= levels[i].size
    requires Wall(side, levels[i].price, levels[i].size, (levels[i].price - mid) / mid * 100.0) in
             WallsAmong(side, levels, mid, threshold, pct)
    ensures Wall(side, levels[i].price, size, (levels[i].price - mid) / mid * 100.0) in
            WallsAmong(side, levels[i := BookLevel(levels[i].price, size)], mid, threshold, pct)
  {
    var raised := levels[i := BookLevel(levels[i].price, size)];
    assert raised[i] in raised;
    var w := Wall(side, levels[i].price, levels[i].size, (levels[i].price - mid) / mid * 100.0);
    CandidatesExact(side, levels, mid, threshold, pct, w);
    CandidatesExact(side, raised, mid, threshold, pct, w.(size := size));
    hide Near, WallsAmong;
  }

  // ---------------------------------------------------------------- the threshold

  function AtMostOf(x: int): int -> int { (y: int) => if y <= x then 1 else 0 }

  function AtLeastOf(x: int): int -> int { (y: int) => if y >= x then 1 else 0 }

  function CountAtMost(sizes: seq<int>, x: int): int { SumInt(sizes, AtMostOf(x)) }

  function CountAtLeast(sizes: seq<int>, x: int): int { SumInt(sizes, AtLeastOf(x)) }

  lemma {:induction false} CountAll(s: seq<int>, f: int -> int)
    requires forall i :: 0 <= i < |s| ==> f(s[i]) == 1
    ensures SumInt(s, f) == |s|
  {
    if s != [] { CountAll(s[..|s| - 1], f); }
  }

  lemma {:induction false} CountSome(s: seq<int>, f: int -> int)
    requires forall x :: f(x) >= 0
    ensures SumInt(s, f) >= 0
  {
    if s != [] { CountSome(s[..|s| - 1], f); }
  }

  /** The size a detection compares with: one of the book's sizes, with more than
      half of them no larger and at least half of them no smaller. */
  ghost predicate IsMedian(sizes: seq<int>, x: int) {
    x in sizes && 2 * CountAtMost(sizes, x) > |sizes| && 2 * CountAtLeast(sizes, x) >= |sizes|
  }

  lemma Middle(sorted: seq<int>, k: nat)
    requires Ordered(sorted, AtMost) && k < |sorted|
    ensures CountAtMost(sorted, sorted[k]) >= k + 1 && CountAtLeast(sorted, sorted[k]) >= |sorted| - k
  {
    var x := sorted[k];
    MiddleLow(sorted, k);
    var low, high := sorted[..k], sorted[k..];
    assert sorted == low + high;
    assert forall i :: k < i < |sorted| ==> AtMost(x, sorted[i]);
    hide Ordered;
    SumIntJoin(low, high, AtLeastOf(x));
    CountAll(high, AtLeastOf(x));
    CountSome(low, AtLeastOf(x));
  }

  lemma MiddleLow(sorted: seq<int>, k: nat)
    requires Ordered(sorted, AtMost) && k < |sorted|
    ensures CountAtMost(sorted, sorted[k]) >= k + 1
  {
    var x := sorted[k];
    var low, high := sorted[..k + 1], sorted[k + 1..];
    assert sorted == low + high;
    assert forall i :: 0 <= i < k ==> AtMost(sorted[i], x);
    hide Ordered;
    SumIntJoin(low, high, AtMostOf(x));
    CountAll(low, AtMostOf(x));
    CountSome(high, AtMostOf(x));
  }

  lemma UpperMedian(sizes: seq<int>)
    requires sizes != []
    ensures |Sort(sizes, AtMost)| == |sizes| && IsMedian(sizes, Sort(sizes, AtMost)[|sizes| / 2])
  {
    hide Sort, Ordered, SumInt, TotalPreorder;
    AtMostOrders();
    SortPermutes(sizes, AtMost);
    SortOrders(sizes, AtMost);
    var sorted, k := Sort(sizes, AtMost), |sizes| / 2;
    Middle(sorted, k);
    SumIntPermutes(sorted, sizes, AtMostOf(sorted[k]));
    SumIntPermutes(sorted, sizes, AtLeastOf(sorted[k]));
    assert sorted[k] in multiset(sorted);
  }

  lemma AtMostOrders()
    ensures TotalPreorder(AtMost)
  {
  }

  /** The smallest size that counts: at least 1, and more than the multiple of the
      median less one, which is the multiple rounded down. */
  lemma ThresholdMeans(sizes: seq<int>, multiple: real, size: int) returns (median: int)
    requires sizes != [] && multiple >= 0.0 && forall x :: x in sizes ==> x >= 0
    ensures IsMedian(sizes, median) && median >= 0
    ensures size >= Threshold(sizes, multiple) <==> size >= 1 && size as real + 1.0 > median as real * multiple
  {
    UpperMedian(sizes);
    median := Sort(sizes, AtMost)[|sizes| / 2];
    hide IsMedian;
    assert median as real * multiple >= 0.0 by {
      assert IsMedian(sizes, median) ==> median in sizes by { MedianIn(sizes, median); }
    }
  }

  lemma MedianIn(sizes: seq<int>, x: int)
    ensures IsMedian(sizes, x) ==> x in sizes
  {
  }

  /** With a multiple of at least 1, more than half of the book is no larger than
      anything that reaches the threshold. */
  lemma ThresholdAboveHalf(sizes: seq<int>, multiple: real, size: int)
    requires sizes != [] && multiple >= 1.0 && size >= Threshold(sizes, multiple)
    ensures 2 * CountAtMost(sizes, size) > |sizes|
  {
    UpperMedian(sizes);
    var median := Sort(sizes, AtMost)[|sizes| / 2];
    hide Sort;
    if median >= 1 {
      assert median as real * multiple >= median as real by { assert median as real * (multiple - 1.0) >= 0.0; }
    }
    assert size >= median;
    MoreAtMost(sizes, median, size);
  }

  lemma {:induction false} MoreAtMost(s: seq<int>, x: int, y: int)
    requires x <= y
    ensures CountAtMost(s, x) <= CountAtMost(s, y)
  {
    if s != [] { MoreAtMost(s[..|s| - 1], x, y); }
  }

  // ---------------------------------------------------------------- what is reported

  function BookSizes(s: Snapshot): seq<int> { Sizes(s.bids) + Sizes(s.asks) }

  ghost predicate Readable(s: Snapshot) { s.bids != [] && s.asks != [] && BookMid(s) > 0.0 }

  /** A book without a bid or an ask, or without a positive mid price, has no walls. */
  lemma NoBookNoWalls(s: Snapshot, side: Side, p: Settings)
    requires !Readable(s)
    ensures Detect(s, side, p) == []
  {
  }

  lemma DetectIs(s: Snapshot, side: Side, p: Settings)
    requires Readable(s)
    ensures BookSizes(s) != []
    ensures var threshold := Threshold(BookSizes(s), p.minSizeMultiple);
      Detect(s, side, p) == Top(WallsAmong(side, Levels(s, side), BookMid(s), threshold, p.maxDistancePct), p.topN)
  {
    hide Top, WallsAmong, Threshold;
  }

  lemma TopMembers(s: seq<Wall>, n: nat, w: Wall)
    ensures w in Top(s, n) ==> w in s
    ensures w in s && w !in Top(s, n) ==> |Top(s, n)| == n && forall i :: 0 <= i < n ==> w.size <= Top(s, n)[i].size
  {
    TopIsLargest(s, n);
    var t := Top(s, n);
    hide Top;
    assert w in t ==> w in multiset(t);
    if w in s && w !in t {
      assert w in multiset(s) - multiset(t);
      if |t| != n { SameSize(s, t, w); }
    }
  }

  lemma SameSize(s: seq<Wall>, t: seq<Wall>, w: Wall)
    requires multiset(t) <= multiset(s) && w in multiset(s) - multiset(t)
    ensures |t| < |s|
  {
    assert |multiset(s)| == |multiset(s) - multiset(t)| + |multiset(t)|;
  }

  /** Every reported wall is a level of its own side near the mid price, and it is
      large: with a multiple of at least 1, more than half of all levels of the
      book are no larger. */
  lemma WallsAreLargeLevels(s: Snapshot, side: Side, p: Settings, w: Wall)
    requires w in Detect(s, side, p)
    ensures Readable(s) && |Detect(s, side, p)| <= p.topN
    ensures exists l :: l in Levels(s, side) && IsWallOf(w, side, l, BookMid(s))
    ensures Near(side, w.price, BookMid(s), p.maxDistancePct) && w.size >= 1
    ensures p.minSizeMultiple >= 1.0 ==> 2 * CountAtMost(BookSizes(s), w.size) > |BookSizes(s)|
  {
    if !Readable(s) { NoBookNoWalls(s, side, p); }
    DetectIs(s, side, p);
    var threshold := Threshold(BookSizes(s), p.minSizeMultiple);
    var all := WallsAmong(side, Levels(s, side), BookMid(s), threshold, p.maxDistancePct);
    TopMembers(all, p.topN, w);
    TopIsLargest(all, p.topN);
    CandidatesExact(side, Levels(s, side), BookMid(s), threshold, p.maxDistancePct, w);
    assert threshold >= 1;
    hide Detect, Top, WallsAmong, Near, Threshold, Levels, BookSizes;
    if p.minSizeMultiple >= 1.0 { ThresholdAboveHalf(BookSizes(s), p.minSizeMultiple, w.size); }
  }

  /** Nothing larger is passed over: a near level of the same side at least as large
      as a reported wall is reported too, unless `top_n` walls no smaller are. */
  lemma LargerIsReported(s: Snapshot, side: Side, p: Settings, w: Wall, l: BookLevel)
    requires w in Detect(s, side, p) && l in Levels(s, side) && l.size >= w.size
    requires Readable(s) && Near(side, l.price, BookMid(s), p.maxDistancePct)
    ensures var found, mid := Detect(s, side, p), BookMid(s);
      var x := Wall(side, l.price, l.size, (l.price - mid) / mid * 100.0);
      x in found || (|found| == p.topN && forall i :: 0 <= i < |found| ==> found[i].size >= l.size)
  {
    DetectIs(s, side, p);
    var threshold := Threshold(BookSizes(s), p.minSizeMultiple);
    var all := WallsAmong(side, Levels(s, side), BookMid(s), threshold, p.maxDistancePct);
    var x := Wall(side, l.price, l.size, (l.price - BookMid(s)) / BookMid(s) * 100.0);
    hide Detect, Top, WallsAmong, Near, Threshold, Levels, BookSizes, BookMid;
    TopMembers(all, p.topN, w);
    CandidatesExact(side, Levels(s, side), BookMid(s), threshold, p.maxDistancePct, w);
    CandidatesExact(side, Levels(s, side), BookMid(s), threshold, p.maxDistancePct, x);
    assert IsWallOf(x, side, l, BookMid(s));
    TopMembers(all, p.topN, x);
  }

  // ---------------------------------------------------------------- what persists

  /** How many of the last detections saw a wall at the price. */
  ghost function Sightings(detections: seq<seq<Wall>>, price: real): set<int> {
    set i | 0 <= i < |detections| && exists w :: w in detections[i] && w.price == price
  }

  lemma {:induction false} CountIsSightings(window: seq<seq<Wall>>, price: real)
    ensures CountOf(PriceSets(window), price) == |Sightings(window, price)|
  {
    if window == [] {
      assert Sightings(window, price) == {};
    } else {
      var n := |window| - 1;
      CountIsSightings(window[..n], price);
      assert PriceSets(window)[..n] == PriceSets(window[..n]);
      assert Sightings(window, price) ==
             Sightings(window[..n], price) + (if price in Prices(window[n]) then {n} else {});
    }
  }

  lemma PricesAppend(front: seq<Wall>, last: Wall)
    ensures Prices(front + [last]) == Prices(front) + {last.price}
  {
    assert forall w :: w in front + [last] <==> w in front || w == last;
  }

  lemma {:induction false} DistinctPrices(report: seq<Wall>)
    requires Distinct(report, PriceOf)
    ensures |Prices(report)| == |report|
  {
    if report != [] {
      var n := |report| - 1;
      DistinctPrices(report[..n]);
      forall w | w in report[..n] ensures w.price != report[n].price {
        var i :| 0 <= i < n && report[i] == w;
        assert PriceOf(report[i]) != PriceOf(report[n]);
      }
      PricesAppend(report[..n], report[n]);
      assert report == report[..n] + [report[n]];
      assert report[n].price !in Prices(report[..n]);
      hide Prices, Distinct;
    }
  }

  lemma SameSet(a: set<real>, b: set<real>)
    requires a <= b && |a| == |b|
    ensures a == b
  {
    assert |b - a| == 0 by { assert b == a + (b - a) && a !! (b - a); }
  }

  lemma ReportPrices(report: seq<Wall>, prices: set<real>)
    requires Distinct(report, PriceOf) && |report| == |prices|
    requires forall i :: 0 <= i < |report| ==> report[i].price in prices
    ensures Prices(report) == prices
  {
    DistinctPrices(report);
    SameSet(Prices(report), prices);
  }

  /** A reported wall was seen at its price in at least `min_persistence` of the last
      `window_size` detections, and no persistent price is left out of a report
      that is not full. */
  lemma ReportsArePersistent(report: seq<Wall>, detections: seq<seq<Wall>>, p: Settings)
    requires IsReport(report, detections, p) && p.minPersistence >= 1
    ensures var n := |detections|;
      var window := if n <= p.windowSize then detections else detections[n - p.windowSize..];
      && (forall w :: w in report ==> |Sightings(window, w.price)| >= p.minPersistence)
      && (|window| >= p.minPersistence && |report| < p.topN ==>
            forall price :: |Sightings(window, price)| >= p.minPersistence ==> price in Prices(report))
  {
    var window := Window(detections, p.windowSize);
    var prices := PersistentPrices(PriceSets(window), p.minPersistence);
    forall price ensures CountOf(PriceSets(window), price) == |Sightings(window, price)| {
      CountIsSightings(window, price);
    }
    hide Sightings, CountOf, MostRecent;
    forall price | |Sightings(window, price)| >= p.minPersistence && |window| >= p.minPersistence
      ensures price in prices
    {
      if price !in Union(PriceSets(window)) { CountNone(PriceSets(window), price); }
    }
    if |window| >= p.minPersistence && |report| < p.topN {
      assert |report| == |prices|;
      ReportPrices(report, prices);
    }
  }
}
