/** Dealer gamma exposure by strike and the gamma flip (analysis/gamma_exposure.py),
    in real arithmetic. The Black-Scholes formula itself is a parameter; only
    when it yields no value is modelled. A dictionary keyed by strike is a list
    of its entries in insertion order.
  */
module GammaExposure {
  import opened Numbers
  import opened Options
  import opened Sequences

  datatype Side = Call | Put

  datatype Row = Row(
    side: Side, strike: real, dte: int, openInterest: Option<int>, iv: Option<real>, multiplier: real,
    vendorGamma: Option<real>, underlying: Option<real>)

  /** Gamma from spot, strike, years, volatility and rate. */
  type Formula = (real, real, real, real, real) -> real

  datatype Model = Model(formula: Formula, rate: real, useVendor: bool, maxDriftPct: real, minDte: int)

  function BsGamma(m: Model, spot: real, strike: real, years: real, iv: real): Option<real> {
    if spot <= 0.0 || strike <= 0.0 || years <= 0.0 || iv <= 0.0 then None
    else Some(m.formula(spot, strike, years, iv, m.rate))
  }

  predicate Given(x: Option<real>) { x.Some? && x.value != 0.0 }

  predicate HasOi(r: Row) { r.openInterest.Some? && r.openInterest.value != 0 }

  predicate VendorUsable(m: Model, r: Row, spot: real) {
    Given(r.vendorGamma) && Given(r.underlying) &&
    Abs(spot - r.underlying.value) / r.underlying.value * 100.0 <= m.maxDriftPct
  }

  function GammaOf(m: Model, r: Row, spot: real): Option<real> {
    if m.useVendor && VendorUsable(m, r, spot) then r.vendorGamma
    else BsGamma(m, spot, r.strike, r.dte as real / 365.0, if r.iv.Some? then r.iv.value else 0.0)
  }

  /** Dollars of dealer delta per 1% move; None when the contract is skipped. */
  function ContractGex(m: Model, r: Row, spot: real): Option<real> {
    if !HasOi(r) then None
    else
      var g := GammaOf(m, r, spot);
      if g.None? then None
      else
        var mag := g.value * r.openInterest.value as real * r.multiplier * spot * spot * 0.01;
        Some(if r.side == Call then mag else -mag)
  }

  function GexOrZero(m: Model, r: Row, spot: real): real {
    var g := ContractGex(m, r, spot);
    if g.Some? then g.value else 0.0
  }

  function GexAt(m: Model, spot: real): Row -> real { r => GexOrZero(m, r, spot) }

  /** The flat sum of exposures. */
  function FlatSum(m: Model, rows: seq<Row>, spot: real): real { SumReal(rows, GexAt(m, spot)) }

  function BlackScholes(m: Model): Model { m.(useVendor := false) }

  /** `_net_at`. */
  method NetAt(m: Model, rows: seq<Row>, spot: real) returns (total: real)
    ensures total == FlatSum(BlackScholes(m), rows, spot)
  {
    total := 0.0;
    for i := 0 to |rows|
      invariant total == FlatSum(BlackScholes(m), rows[..i], spot)
    {
      assert rows[..i + 1][..i] == rows[..i];
      var gex := ContractGex(BlackScholes(m), rows[i], spot);
      if gex.Some? {
        total := total + gex.value;
      }
    }
    assert rows[..|rows|] == rows;
  }

  // ---------------------------------------------------------------- by strike

  datatype StrikeGamma = StrikeGamma(strike: real, call: real, put: real)

  function Net(s: StrikeGamma): real { s.call + s.put }

  function StrikeOf(s: StrikeGamma): real { s.strike }

  function NetSum(s: seq<StrikeGamma>): real { SumReal(s, Net) }

  function AddSide(e: StrikeGamma, side: Side, gex: real): StrikeGamma {
    if side == Call then e.(call := e.call + gex) else e.(put := e.put + gex)
  }

  /** `agg.setdefault(strike, [0, 0])` and the addition to one side of it. */
  function AddTo(agg: seq<StrikeGamma>, strike: real, side: Side, gex: real): seq<StrikeGamma> {
    if agg == [] then [AddSide(StrikeGamma(strike, 0.0, 0.0), side, gex)]
    else
      var n := |agg| - 1;
      if agg[n].strike == strike then agg[n := AddSide(agg[n], side, gex)]
      else AddTo(agg[..n], strike, side, gex) + [agg[n]]
  }

  function Aggregate(m: Model, rows: seq<Row>, spot: real): seq<StrikeGamma> {
    if rows == [] then []
    else
      var r := rows[|rows| - 1];
      var agg := Aggregate(m, rows[..|rows| - 1], spot);
      var gex := ContractGex(m, r, spot);
      if gex.None? then agg else AddTo(agg, r.strike, r.side, gex.value)
  }

  predicate NotAbove(a: StrikeGamma, b: StrikeGamma) { a.strike <= b.strike }

  function ByStrike(m: Model, rows: seq<Row>, spot: real): seq<StrikeGamma> {
    Sort(Aggregate(m, rows, spot), NotAbove)
  }

  lemma {:induction false} AddToNet(agg: seq<StrikeGamma>, strike: real, side: Side, gex: real)
    ensures NetSum(AddTo(agg, strike, side, gex)) == NetSum(agg) + gex
  {
    if agg == [] {
      SumRealAppend([], AddSide(StrikeGamma(strike, 0.0, 0.0), side, gex), Net);
      assert [] + AddTo(agg, strike, side, gex) == AddTo(agg, strike, side, gex);
    } else {
      var n := |agg| - 1;
      if agg[n].strike == strike {
        assert agg[n := AddSide(agg[n], side, gex)][..n] == agg[..n];
      } else {
        AddToNet(agg[..n], strike, side, gex);
        SumRealAppend(AddTo(agg[..n], strike, side, gex), agg[n], Net);
      }
    }
  }

  lemma {:induction false} AggregateNet(m: Model, rows: seq<Row>, spot: real)
    ensures NetSum(Aggregate(m, rows, spot)) == FlatSum(m, rows, spot)
  {
    if rows != [] {
      var r := rows[|rows| - 1];
      AggregateNet(m, rows[..|rows| - 1], spot);
      var gex := ContractGex(m, r, spot);
      if gex.Some? { AddToNet(Aggregate(m, rows[..|rows| - 1], spot), r.strike, r.side, gex.value); }
    }
  }

  /** Grouping by strike conserves exposure: the total over strikes is the flat
      sum over contracts, and so without vendor gamma it is the Black-Scholes total. */
  lemma TotalIsFlatSum(m: Model, rows: seq<Row>, spot: real)
    ensures NetSum(ByStrike(m, rows, spot)) == FlatSum(m, rows, spot)
    ensures !m.useVendor ==> NetSum(ByStrike(m, rows, spot)) == FlatSum(BlackScholes(m), rows, spot)
  {
    SortPermutes(Aggregate(m, rows, spot), NotAbove);
    SumRealPermutes(ByStrike(m, rows, spot), Aggregate(m, rows, spot), Net);
    AggregateNet(m, rows, spot);
    assert !m.useVendor ==> BlackScholes(m) == m;
  }

  function SideGex(m: Model, spot: real, strike: real, side: Side): Row -> real {
    (r: Row) => if r.strike == strike && r.side == side then GexOrZero(m, r, spot) else 0.0
  }

  /** Exposure of one side at one strike. */
  function SideSum(m: Model, rows: seq<Row>, spot: real, strike: real, side: Side): real {
    SumReal(rows, SideGex(m, spot, strike, side))
  }

  function SideOf(e: StrikeGamma, side: Side): real { if side == Call then e.call else e.put }

  function SideAt(strike: real, side: Side): StrikeGamma -> real {
    (e: StrikeGamma) => if e.strike == strike then SideOf(e, side) else 0.0
  }

  /** What the entries for one strike hold on one side. */
  function EntrySum(s: seq<StrikeGamma>, strike: real, side: Side): real { SumReal(s, SideAt(strike, side)) }

  ghost predicate HasStrike(s: seq<StrikeGamma>, strike: real) {
    exists i :: 0 <= i < |s| && s[i].strike == strike
  }

  lemma {:induction false} AddToEntry(agg: seq<StrikeGamma>, k: real, d: Side, gex: real, strike: real, side: Side)
    ensures EntrySum(AddTo(agg, k, d, gex), strike, side) ==
            EntrySum(agg, strike, side) + (if k == strike && d == side then gex else 0.0)
  {
    var f := SideAt(strike, side);
    if agg == [] {
      SumRealAppend([], AddSide(StrikeGamma(k, 0.0, 0.0), d, gex), f);
      assert [] + AddTo(agg, k, d, gex) == AddTo(agg, k, d, gex);
    } else {
      var n := |agg| - 1;
      assert agg == agg[..n] + [agg[n]];
      if agg[n].strike == k {
        assert AddTo(agg, k, d, gex) == agg[..n] + [AddSide(agg[n], d, gex)];
        SumRealAppend(agg[..n], AddSide(agg[n], d, gex), f);
      } else {
        AddToEntry(agg[..n], k, d, gex, strike, side);
        SumRealAppend(AddTo(agg[..n], k, d, gex), agg[n], f);
      }
    }
  }

  lemma {:induction false} AddToStrikes(agg: seq<StrikeGamma>, k: real, d: Side, gex: real)
    ensures forall e :: e in AddTo(agg, k, d, gex) ==> e.strike == k || HasStrike(agg, e.strike)
  {
    if agg != [] {
      var n := |agg| - 1;
      AddToStrikes(agg[..n], k, d, gex);
      assert forall i :: 0 <= i < n ==> agg[..n][i] == agg[i];
    }
  }

  lemma {:induction false} AddToDistinct(agg: seq<StrikeGamma>, k: real, d: Side, gex: real)
    requires Distinct(agg, StrikeOf)
    ensures Distinct(AddTo(agg, k, d, gex), StrikeOf)
  {
    if agg != [] {
      var n := |agg| - 1;
      if agg[n].strike != k {
        AddToDistinct(agg[..n], k, d, gex);
        AddToStrikes(agg[..n], k, d, gex);
        var a := AddTo(agg[..n], k, d, gex);
        forall i | 0 <= i < |a| ensures StrikeOf(a[i]) != StrikeOf(agg[n]) {
          assert a[i] in a;
          if a[i].strike != k {
            var j :| 0 <= j < n && agg[..n][j].strike == a[i].strike;
            assert StrikeOf(agg[j]) != StrikeOf(agg[n]);
          }
        }
      }
    }
  }

  ghost predicate Ascending(s: seq<StrikeGamma>) {
    forall i, j :: 0 <= i < j < |s| ==> s[i].strike < s[j].strike
  }

  lemma {:induction false} AggregateEntry(m: Model, rows: seq<Row>, spot: real, strike: real, side: Side)
    ensures EntrySum(Aggregate(m, rows, spot), strike, side) == SideSum(m, rows, spot, strike, side)
  {
    if rows != [] {
      var n := |rows| - 1;
      var gex := ContractGex(m, rows[n], spot);
      AggregateEntry(m, rows[..n], spot, strike, side);
      if gex.Some? {
        AddToEntry(Aggregate(m, rows[..n], spot), rows[n].strike, rows[n].side, gex.value, strike, side);
      }
    }
  }

  lemma {:induction false} AggregateDistinct(m: Model, rows: seq<Row>, spot: real)
    ensures Distinct(Aggregate(m, rows, spot), StrikeOf)
  {
    if rows != [] {
      var n := |rows| - 1;
      var gex := ContractGex(m, rows[n], spot);
      AggregateDistinct(m, rows[..n], spot);
      if gex.Some? { AddToDistinct(Aggregate(m, rows[..n], spot), rows[n].strike, rows[n].side, gex.value); }
    }
  }

  lemma {:induction false} NoEntry(s: seq<StrikeGamma>, strike: real, side: Side)
    requires forall i :: 0 <= i < |s| ==> s[i].strike != strike
    ensures EntrySum(s, strike, side) == 0.0
  {
    if s != [] { NoEntry(s[..|s| - 1], strike, side); }
  }

  lemma {:induction false} OnlyEntry(s: seq<StrikeGamma>, i: nat, side: Side)
    requires Ascending(s) && i < |s|
    ensures EntrySum(s, s[i].strike, side) == SideOf(s[i], side)
  {
    var n := |s| - 1;
    if i < n {
      OnlyEntry(s[..n], i, side);
    } else {
      NoEntry(s[..n], s[n].strike, side);
    }
  }

  /** The profile's strikes strictly ascend, and each entry holds exactly the
      exposure of the calls and of the puts at its strike. */
  lemma StrikesExact(m: Model, rows: seq<Row>, spot: real)
    ensures Ascending(ByStrike(m, rows, spot))
    ensures forall i :: 0 <= i < |ByStrike(m, rows, spot)| ==>
              var e := ByStrike(m, rows, spot)[i];
              e.call == SideSum(m, rows, spot, e.strike, Call) && e.put == SideSum(m, rows, spot, e.strike, Put)
  {
    var agg, sorted := Aggregate(m, rows, spot), ByStrike(m, rows, spot);
    AggregateDistinct(m, rows, spot);
    SortPermutes(agg, NotAbove);
    SortOrders(agg, NotAbove);
    SelectionDistinct(sorted, agg, StrikeOf);
    forall i, j | 0 <= i < j < |sorted| ensures sorted[i].strike < sorted[j].strike {
      assert NotAbove(sorted[i], sorted[j]) && StrikeOf(sorted[i]) != StrikeOf(sorted[j]);
    }
    forall i | 0 <= i < |sorted|
      ensures sorted[i].call == SideSum(m, rows, spot, sorted[i].strike, Call)
      ensures sorted[i].put == SideSum(m, rows, spot, sorted[i].strike, Put)
    {
      EntryExact(m, rows, spot, i, Call);
      EntryExact(m, rows, spot, i, Put);
    }
  }

  lemma EntryExact(m: Model, rows: seq<Row>, spot: real, i: nat, side: Side)
    requires Ascending(ByStrike(m, rows, spot)) && i < |ByStrike(m, rows, spot)|
    ensures SideOf(ByStrike(m, rows, spot)[i], side) == SideSum(m, rows, spot, ByStrike(m, rows, spot)[i].strike, side)
  {
    var agg, sorted := Aggregate(m, rows, spot), ByStrike(m, rows, spot);
    OnlyEntry(sorted, i, side);
    SortPermutes(agg, NotAbove);
    SumRealPermutes(sorted, agg, SideAt(sorted[i].strike, side));
    AggregateEntry(m, rows, spot, sorted[i].strike, side);
  }

  // ---------------------------------------------------------------- what was counted

  predicate Live(m: Model, r: Row) { r.dte >= m.minDte }

  predicate NoIv(r: Row) { !Given(r.iv) }

  function LiveRows(m: Model, rows: seq<Row>): seq<Row> {
    if rows == [] then []
    else
      var front := LiveRows(m, rows[..|rows| - 1]);
      if Live(m, rows[|rows| - 1]) then front + [rows[|rows| - 1]] else front
  }

  datatype Counters = Counters(used: nat, zeroDte: nat, noOi: nat, noIv: nat) {
    function Total(): nat { used + zeroDte + noOi + noIv }
  }

  /** All that the counters look at in a contract. */
  datatype Status = Status(live: bool, hasOi: bool, noIv: bool, used: bool)

  function StatusOf(m: Model, r: Row, spot: real): Status {
    Status(Live(m, r), HasOi(r), NoIv(r), ContractGex(m, r, spot).Some?)
  }

  function Statuses(m: Model, rows: seq<Row>, spot: real): (s: seq<Status>)
    ensures |s| == |rows|
  {
    seq(|rows|, i requires 0 <= i < |rows| => StatusOf(m, rows[i], spot))
  }

  function Count(c: Counters, s: Status): Counters {
    if !s.live then c.(zeroDte := c.zeroDte + 1)
    else if !s.hasOi then c.(noOi := c.noOi + 1)
    else c.(noIv := if s.noIv then c.noIv + 1 else c.noIv, used := if s.used then c.used + 1 else c.used)
  }

  function CountAll(s: seq<Status>): Counters {
    if s == [] then Counters(0, 0, 0, 0) else Count(CountAll(s[..|s| - 1]), s[|s| - 1])
  }

  /** The profile's counters. */
  function Counted(m: Model, rows: seq<Row>, spot: real): Counters { CountAll(Statuses(m, rows, spot)) }

  /** A live contract with open interest that is used although it has no IV
      (its vendor gamma was fresh), and one that is neither used nor reported. */
  predicate CountedTwice(s: Status) { s.live && s.hasOi && s.noIv && s.used }

  predicate Unreported(s: Status) { s.live && s.hasOi && !s.noIv && !s.used }

  function Many<T>(s: seq<T>, p: T -> bool): nat {
    if s == [] then 0 else Many(s[..|s| - 1], p) + (if p(s[|s| - 1]) then 1 else 0)
  }

  lemma {:induction false} Balance(s: seq<Status>)
    ensures CountAll(s).Total() + Many(s, Unreported) == |s| + Many(s, CountedTwice)
  {
    if s != [] {
      Balance(s[..|s| - 1]);
    }
  }

  /** The counters account for every contract exactly when as many are counted
      twice as are not reported at all. */
  lemma CountersBalance(m: Model, rows: seq<Row>, spot: real)
    ensures Counted(m, rows, spot).Total() + Many(Statuses(m, rows, spot), Unreported) ==
            |rows| + Many(Statuses(m, rows, spot), CountedTwice)
  {
    hide Many, CountAll, Statuses;
    Balance(Statuses(m, rows, spot));
  }

  lemma {:induction false} ManyNone<T>(s: seq<T>, p: T -> bool)
    ensures Many(s, p) == 0 <==> forall i :: 0 <= i < |s| ==> !p(s[i])
  {
    if s != [] { ManyNone(s[..|s| - 1], p); }
  }

  /** A contract the vendor-free profile drops without a word: it is live and has
      open interest and an IV, but has already expired. */
  predicate SilentlyExpired(m: Model, r: Row) { Live(m, r) && HasOi(r) && !NoIv(r) && r.dte <= 0 }

  lemma StatusWithoutVendor(m: Model, r: Row, spot: real)
    requires !m.useVendor && spot > 0.0 && r.strike > 0.0 && (Given(r.iv) ==> r.iv.value > 0.0)
    ensures !CountedTwice(StatusOf(m, r, spot))
    ensures Unreported(StatusOf(m, r, spot)) <==> SilentlyExpired(m, r)
  {
    YearsPositive(r.dte);
    YearsNotPositive(r.dte);
  }

  /** With vendor gamma off, for contracts with a positive strike and a positive
      or missing IV, the counters add up exactly when no contract is dropped as
      expired; with `min_dte` at least 1 none ever is. */
  lemma CountersExact(m: Model, rows: seq<Row>, spot: real)
    requires !m.useVendor && spot > 0.0
    requires forall r :: r in rows ==> r.strike > 0.0 && (Given(r.iv) ==> r.iv.value > 0.0)
    ensures Counted(m, rows, spot).Total() == |rows| <==> forall r :: r in rows ==> !SilentlyExpired(m, r)
    ensures m.minDte >= 1 ==> Counted(m, rows, spot).Total() == |rows|
  {
    var s := Statuses(m, rows, spot);
    CountersBalance(m, rows, spot);
    ManyNone(s, CountedTwice);
    ManyNone(s, Unreported);
    forall i | 0 <= i < |rows| ensures !CountedTwice(s[i]) && (Unreported(s[i]) <==> SilentlyExpired(m, rows[i])) {
      assert rows[i] in rows;
      StatusWithoutVendor(m, rows[i], spot);
    }
    hide *;
    assert forall i :: 0 <= i < |rows| ==> rows[i] in rows;
    NeverExpired(m, rows);
  }

  lemma NeverExpired(m: Model, rows: seq<Row>)
    ensures m.minDte >= 1 ==> forall r :: r in rows ==> !SilentlyExpired(m, r)
  {
  }

  lemma StatusesAppend(m: Model, rows: seq<Row>, i: nat, spot: real)
    requires i < |rows|
    ensures Counted(m, rows[..i + 1], spot) == Count(Counted(m, rows[..i], spot), StatusOf(m, rows[i], spot))
  {
    hide StatusOf, Count;
    var s, t := Statuses(m, rows[..i + 1], spot), Statuses(m, rows[..i], spot);
    assert s[..i] == t;
  }

  lemma YearsPositive(dte: int)
    ensures dte >= 1 ==> dte as real / 365.0 > 0.0
  {
  }

  lemma YearsNotPositive(dte: int)
    ensures dte <= 0 ==> dte as real / 365.0 <= 0.0
  {
  }

  // ---------------------------------------------------------------- bands

  /** Net exposure of the strikes in [lo, hi). */
  function NetIn(s: seq<StrikeGamma>, lo: real, hi: real): real {
    if s == [] then 0.0
    else
      var e := s[|s| - 1];
      NetIn(s[..|s| - 1], lo, hi) + (if lo <= e.strike < hi then Net(e) else 0.0)
  }

  function Bands(s: seq<StrikeGamma>, edges: seq<real>): seq<(real, real, real)> {
    if |edges| < 2 then []
    else
      var n := |edges| - 1;
      Bands(s, edges[..n]) + [(edges[n - 1], edges[n], NetIn(s, edges[n - 1], edges[n]))]
  }

  function BandTotal(bands: seq<(real, real, real)>): real {
    if bands == [] then 0.0 else BandTotal(bands[..|bands| - 1]) + bands[|bands| - 1].2
  }

  ghost predicate NonDecreasing(edges: seq<real>) {
    forall i, j :: 0 <= i <= j < |edges| ==> edges[i] <= edges[j]
  }

  lemma {:induction false} NetSplits(s: seq<StrikeGamma>, a: real, b: real, c: real)
    requires a <= b <= c
    ensures NetIn(s, a, c) == NetIn(s, a, b) + NetIn(s, b, c)
    ensures NetIn(s, a, a) == 0.0
  {
    if s != [] { NetSplits(s[..|s| - 1], a, b, c); }
  }

  /** Bands over ascending edges cover [first, last) once: nothing is dropped or
      counted twice at an inner edge. */
  lemma {:induction false} BandsPartition(s: seq<StrikeGamma>, edges: seq<real>)
    requires |edges| >= 1 && NonDecreasing(edges)
    ensures BandTotal(Bands(s, edges)) == NetIn(s, edges[0], edges[|edges| - 1])
  {
    var n := |edges| - 1;
    if n == 0 {
      NetSplits(s, edges[0], edges[0], edges[0]);
    } else {
      BandsPartition(s, edges[..n]);
      var front := Bands(s, edges[..n]);
      assert Bands(s, edges)[..|front|] == front;
      NetSplits(s, edges[0], edges[n - 1], edges[n]);
    }
  }

  /** The edges used when none are given: eight equal bands from the lowest to
      the highest strike. */
  function DefaultEdges(s: seq<StrikeGamma>): seq<real>
    requires s != []
  {
    var lo, hi := s[0].strike, s[|s| - 1].strike;
    var step := if hi == lo then 1.0 else (hi - lo) / 8.0;
    seq(9, i requires 0 <= i < 9 => Edge(lo, step, i))
  }

  function Edge(lo: real, step: real, i: nat): real { lo + i as real * step }

  lemma {:induction false} NetInAll(s: seq<StrikeGamma>, lo: real, hi: real)
    requires forall i :: 0 <= i < |s| ==> lo <= s[i].strike < hi
    ensures NetIn(s, lo, hi) == NetSum(s)
  {
    if s != [] { NetInAll(s[..|s| - 1], lo, hi); }
  }

  /** With default edges the bands miss exactly the highest strike, unless it is
      the only one. */
  lemma {:induction false} DefaultBands(s: seq<StrikeGamma>)
    requires s != [] && Ascending(s)
    ensures BandTotal(Bands(s, DefaultEdges(s))) ==
            NetSum(s) - (if |s| == 1 then 0.0 else Net(s[|s| - 1]))
  {
    var n := |s| - 1;
    var edges := DefaultEdges(s);
    DefaultSpan(s);
    BandsPartition(s, edges);
    assert n > 0 ==> s[0].strike < s[n].strike;
    hide DefaultEdges, Bands, BandTotal, NonDecreasing;
    if n > 0 {
      assert forall i :: 0 <= i < n ==> s[0].strike <= s[..n][i].strike < s[n].strike;
      NetInAll(s[..n], s[0].strike, s[n].strike);
    } else {
      NetInAll(s, s[0].strike, edges[8]);
    }
  }

  lemma DefaultSpan(s: seq<StrikeGamma>)
    requires s != [] && Ascending(s)
    ensures var edges, lo, hi := DefaultEdges(s), s[0].strike, s[|s| - 1].strike;
            && |edges| == 9 && NonDecreasing(edges) && edges[0] == lo
            && edges[8] == if hi == lo then lo + 8.0 else hi
  {
    var lo, hi := s[0].strike, s[|s| - 1].strike;
    assert lo <= hi;
    var step := if hi == lo then 1.0 else (hi - lo) / 8.0;
    EdgesOrdered(lo, step, DefaultEdges(s));
  }

  lemma Scaled(x: real, y: real, step: real)
    requires x <= y && step > 0.0
    ensures x * step <= y * step
  {
    assert (y - x) * step >= 0.0;
  }

  lemma EdgesOrdered(lo: real, step: real, edges: seq<real>)
    requires step > 0.0 && |edges| == 9 && forall i :: 0 <= i < 9 ==> edges[i] == Edge(lo, step, i)
    ensures NonDecreasing(edges)
  {
    hide Edge;
    forall i, j | 0 <= i <= j < |edges| ensures edges[i] <= edges[j] {
      EdgeOrdered(lo, step, i, j);
    }
  }

  lemma EdgeOrdered(lo: real, step: real, i: nat, j: nat)
    requires step > 0.0 && i <= j
    ensures Edge(lo, step, i) <= Edge(lo, step, j)
  {
    Scaled(i as real, j as real, step);
  }

  // ---------------------------------------------------------------- the flip

  function Grid(lo: real, hi: real, steps: nat, i: nat): real
    requires steps > 0
  {
    lo + (hi - lo) * i as real / steps as real
  }

  predicate Negative(f: real -> real, x: real) { f(x) < 0.0 }

  /** Cell number `k` has nothing for the search: its left end is not zero and
      its ends agree on being negative. */
  predicate QuietCell(f: real -> real, lo: real, hi: real, steps: nat, k: nat)
    requires 0 < k <= steps
  {
    && f(Grid(lo, hi, steps, k - 1)) != 0.0
    && Negative(f, Grid(lo, hi, steps, k - 1)) == Negative(f, Grid(lo, hi, steps, k))
  }

  ghost predicate QuietUpTo(f: real -> real, lo: real, hi: real, steps: nat, n: nat)
    requires steps > 0 && n <= steps
  {
    forall k :: 0 < k <= n ==> QuietCell(f, lo, hi, steps, k)
  }

  lemma SmallerRatio(length: real, tol: real)
    requires tol > 0.0 && length > tol
    ensures (length / 2.0 / tol).Floor < (length / tol).Floor
    ensures (length / tol).Floor >= 1
  {
    var q := length / tol;
    assert q * tol == length;
    assert (q - 1.0) * tol > 0.0;
    assert q > 1.0;
    assert length / 2.0 / tol == q / 2.0 by {
      var h := length / 2.0 / tol;
      assert h * tol == length / 2.0;
      assert (h * 2.0 - q) * tol == 0.0;
    }
  }

  /** How often an interval must be halved to be no longer than `tol`. */
  function Halvings(length: real, tol: real): nat
    requires tol > 0.0
    decreases if length > tol then (length / tol).Floor else 0
  {
    if length <= tol then 0
    else
      SmallerRatio(length, tol);
      1 + Halvings(length / 2.0, tol)
  }

  function Pow2(n: nat): nat { if n == 0 then 1 else 2 * Pow2(n - 1) }

  /** The number of halvings is the logarithm of length over tolerance, rounded up. */
  lemma {:induction false} HalvingsLogarithmic(length: real, tol: real)
    requires tol > 0.0
    ensures length <= tol * Pow2(Halvings(length, tol)) as real
    ensures Halvings(length, tol) > 0 ==> tol * Pow2(Halvings(length, tol) - 1) as real < length
    decreases Halvings(length, tol)
  {
    if length > tol {
      HalvingsLogarithmic(length / 2.0, tol);
      var h := Halvings(length / 2.0, tol);
      Doubled(tol, Pow2(h));
      if h > 0 { Doubled(tol, Pow2(h - 1)); }
    }
  }

  lemma Doubled(tol: real, p: nat)
    ensures tol * (2 * p) as real == 2.0 * (tol * p as real)
  {
    assert (2 * p) as real == 2.0 * p as real;
  }

  /** What a bisection of [a, b] returns: the middle of an interval inside it, no
      longer than `tol`, whose ends still disagree. */
  ghost predicate Bracketed(f: real -> real, a: real, b: real, tol: real, x: real) {
    exists l, r :: Bracket(f, a, b, tol, x, l, r)
  }

  ghost predicate Bracket(f: real -> real, a: real, b: real, tol: real, x: real, l: real, r: real) {
    a <= l < r <= b && r - l <= tol && Negative(f, l) != Negative(f, r) && x == (l + r) / 2.0
  }

  method Bisect(f: real -> real, a0: real, b0: real, tol: real) returns (x: real, halvings: nat)
    requires tol > 0.0 && a0 < b0 && Negative(f, a0) != Negative(f, b0)
    ensures Bracketed(f, a0, b0, tol, x) && a0 < x < b0
    ensures halvings == Halvings(b0 - a0, tol)
  {
    var a, b, fa := a0, b0, f(a0);
    halvings := 0;
    while b - a > tol
      invariant a0 <= a < b <= b0 && fa == f(a) && Negative(f, a) != Negative(f, b)
      invariant halvings + Halvings(b - a, tol) == Halvings(b0 - a0, tol)
      decreases Halvings(b - a, tol)
    {
      var mid := (a + b) / 2.0;
      var fm := f(mid);
      assert mid - a == (b - a) / 2.0 && b - mid == (b - a) / 2.0;
      if (fa < 0.0) != (fm < 0.0) {
        b := mid;
      } else {
        a, fa := mid, fm;
      }
      halvings := halvings + 1;
    }
    x := (a + b) / 2.0;
    assert Bracket(f, a0, b0, tol, x, a, b);
  }

  /** What the search returns, in terms of the first cell that is not quiet. */
  ghost predicate FlipFound(f: real -> real, lo: real, hi: real, steps: nat, tol: real, x: real, k: nat)
    requires 0 < k <= steps
  {
    var l, r := Grid(lo, hi, steps, k - 1), Grid(lo, hi, steps, k);
    && QuietUpTo(f, lo, hi, steps, k - 1)
    && !QuietCell(f, lo, hi, steps, k)
    && (if f(l) == 0.0 then x == l else Bracketed(f, l, r, tol, x) && l < x < r)
  }

  lemma GridAscends(lo: real, hi: real, steps: nat, k: nat)
    requires lo < hi && 0 < k <= steps
    ensures lo <= Grid(lo, hi, steps, k - 1) < Grid(lo, hi, steps, k) <= hi
    ensures Grid(lo, hi, steps, 0) == lo && Grid(lo, hi, steps, steps) == hi
  {
    hide *;
    var w, s, i, j := hi - lo, steps as real, (k - 1) as real, k as real;
    GridOrder(w, s, i, j);
    GridOrder(w, s, 0.0, i);
    GridOrder(w, s, j, s);
    GridEnds(w, s);
    GridIs(lo, hi, steps, k - 1);
    GridIs(lo, hi, steps, k);
    GridIs(lo, hi, steps, 0);
    GridIs(lo, hi, steps, steps);
    var a, b := w * i / s, w * j / s;
    assert Grid(lo, hi, steps, k - 1) == lo + a && Grid(lo, hi, steps, k) == lo + b;
    assert 0.0 <= a < b <= w;
  }

  lemma GridIs(lo: real, hi: real, steps: nat, i: nat)
    requires steps > 0
    ensures Grid(lo, hi, steps, i) == lo + (hi - lo) * i as real / steps as real
  {
  }

  lemma GridEnds(w: real, s: real)
    requires s > 0.0
    ensures w * s / s == w && w * 0.0 / s == 0.0
  {
    var x := w * s / s;
    assert x * s == w * s;
    assert (x - w) * s == 0.0;
  }

  lemma GridOrder(w: real, s: real, i: real, j: real)
    requires w > 0.0 && s > 0.0 && i <= j
    ensures w * i / s <= w * j / s
    ensures i < j ==> w * i / s < w * j / s
  {
    var x, y := w * i / s, w * j / s;
    assert x * s == w * i && y * s == w * j;
    assert (y - x) * s == w * (j - i) >= 0.0;
    if i < j {
      assert w * (j - i) > 0.0;
    }
  }

  /** The contract of the search: no answer means an empty window or nothing but
      quiet cells, an answer lies in the window and comes from the first cell
      that is not quiet. */
  ghost predicate FlipResult(f: real -> real, lo: real, hi: real, steps: nat, tol: real, flip: Option<real>)
    requires steps > 0
  {
    && (lo >= hi ==> flip.None?)
    && (lo < hi ==> (flip.None? <==> QuietUpTo(f, lo, hi, steps, steps)))
    && (flip.Some? ==> lo <= flip.value <= hi
                       && exists k :: 0 < k <= steps && FlipFound(f, lo, hi, steps, tol, flip.value, k))
  }

  lemma CellWidth(lo: real, hi: real, steps: nat, k: nat)
    requires 0 < k <= steps
    ensures Grid(lo, hi, steps, k) - Grid(lo, hi, steps, k - 1) == (hi - lo) / steps as real
  {
    Widths(hi - lo, (k - 1) as real, steps as real);
    hide *;
    GridIs(lo, hi, steps, k - 1);
    GridIs(lo, hi, steps, k);
  }

  lemma Widths(w: real, i: real, s: real)
    requires s > 0.0
    ensures w * (i + 1.0) / s - w * i / s == w / s
  {
    var x, y, z := w * (i + 1.0) / s, w * i / s, w / s;
    assert x * s == w * i + w && y * s == w * i && z * s == w;
    assert (x - y - z) * s == 0.0;
  }

  /** `_solve_flip` for any exposure function; at most one cell is bisected. */
  method SolveFlip(f: real -> real, lo: real, hi: real, steps: nat, tol: real)
    returns (flip: Option<real>, halvings: nat)
    requires steps > 0 && tol > 0.0
    ensures FlipResult(f, lo, hi, steps, tol, flip)
    ensures halvings <= Halvings((hi - lo) / steps as real, tol)
  {
    hide Grid, Halvings, Bracketed;
    halvings := 0;
    if lo >= hi {
      return None, 0;
    }
    var prevS := Grid(lo, hi, steps, 0);
    var prevV := f(prevS);
    for k := 1 to steps + 1
      invariant prevS == Grid(lo, hi, steps, k - 1) && prevV == f(prevS)
      invariant QuietUpTo(f, lo, hi, steps, k - 1) && halvings == 0
    {
      GridAscends(lo, hi, steps, k);
      var s := Grid(lo, hi, steps, k);
      var v := f(s);
      if prevV == 0.0 {
        assert FlipFound(f, lo, hi, steps, tol, prevS, k);
        return Some(prevS), 0;
      }
      if (prevV < 0.0) != (v < 0.0) {
        CellWidth(lo, hi, steps, k);
        var x;
        x, halvings := Bisect(f, prevS, s, tol);
        assert FlipFound(f, lo, hi, steps, tol, x, k);
        return Some(x), halvings;
      }
      prevS, prevV := s, v;
    }
    return None, 0;
  }

  /** On the grid, a search that finds nothing has passed over a zero exactly when
      the last grid point is one; then every earlier one is positive. */
  lemma MissedZero(f: real -> real, lo: real, hi: real, steps: nat)
    requires steps > 0 && lo < hi && QuietUpTo(f, lo, hi, steps, steps)
    ensures (exists i: nat :: i <= steps && f(Grid(lo, hi, steps, i)) == 0.0) <==> f(Grid(lo, hi, steps, steps)) == 0.0
    ensures f(Grid(lo, hi, steps, steps)) == 0.0 ==> forall i: nat :: i < steps ==> f(Grid(lo, hi, steps, i)) > 0.0
  {
    forall i: nat | i < steps ensures f(Grid(lo, hi, steps, i)) != 0.0 {
      assert QuietCell(f, lo, hi, steps, i + 1);
    }
    forall i: nat | i <= steps
      ensures Negative(f, Grid(lo, hi, steps, i)) == Negative(f, Grid(lo, hi, steps, steps))
    {
      SameSign(f, lo, hi, steps, i);
    }
  }

  lemma {:induction false} SameSign(f: real -> real, lo: real, hi: real, steps: nat, i: nat)
    requires steps > 0 && i <= steps && QuietUpTo(f, lo, hi, steps, steps)
    ensures Negative(f, Grid(lo, hi, steps, i)) == Negative(f, Grid(lo, hi, steps, steps))
    decreases steps - i
  {
    if i < steps {
      assert QuietCell(f, lo, hi, steps, i + 1);
      SameSign(f, lo, hi, steps, i + 1);
    }
  }

  /** Exposure that falls to zero exactly at the top of the window is missed. */
  lemma MissedZeroExample()
    ensures var f := (x: real) => 2.0 - x; QuietUpTo(f, 0.0, 2.0, 48, 48) && f(Grid(0.0, 2.0, 48, 48)) == 0.0
  {
    var f := (x: real) => 2.0 - x;
    forall k | 0 < k <= 48 ensures QuietCell(f, 0.0, 2.0, 48, k) {
      assert (k - 1) as real < 48.0 && k as real <= 48.0;
    }
  }

  // ---------------------------------------------------------------- between the grid points

  ghost predicate Monotone(f: real -> real, l: real, r: real) {
    || (forall x, y :: l <= x <= y <= r ==> f(x) <= f(y))
    || (forall x, y :: l <= x <= y <= r ==> f(x) >= f(y))
  }

  /** The grid is fine enough for the curve: it turns only at grid points. */
  ghost predicate CellwiseMonotone(f: real -> real, lo: real, hi: real, steps: nat)
    requires steps > 0
  {
    forall k :: 0 < k <= steps ==> Monotone(f, Grid(lo, hi, steps, k - 1), Grid(lo, hi, steps, k))
  }

  predicate InCell(lo: real, hi: real, steps: nat, k: nat, x: real)
    requires 0 < k <= steps
  {
    Grid(lo, hi, steps, k - 1) <= x <= Grid(lo, hi, steps, k)
  }

  lemma {:induction false} CellOf(lo: real, hi: real, steps: nat, n: nat, x: real) returns (k: nat)
    requires lo < hi && 0 < n <= steps && lo <= x <= Grid(lo, hi, steps, n)
    ensures 0 < k <= n && InCell(lo, hi, steps, k, x)
  {
    GridAscends(lo, hi, steps, n);
    hide Grid;
    if n == 1 || x >= Grid(lo, hi, steps, n - 1) {
      k := n;
    } else {
      k := CellOf(lo, hi, steps, n - 1, x);
    }
  }

  /** Inside a quiet cell a monotone curve keeps the sign of the left end, and
      has no zero before the right end. */
  lemma QuietInside(f: real -> real, lo: real, hi: real, steps: nat, k: nat, x: real)
    requires lo < hi && 0 < k <= steps && InCell(lo, hi, steps, k, x)
    requires Monotone(f, Grid(lo, hi, steps, k - 1), Grid(lo, hi, steps, k)) && QuietCell(f, lo, hi, steps, k)
    ensures Negative(f, x) == Negative(f, Grid(lo, hi, steps, k - 1))
    ensures f(Grid(lo, hi, steps, k)) != 0.0 ==> f(x) != 0.0
  {
    GridAscends(lo, hi, steps, k);
    hide Grid;
    var l, r := Grid(lo, hi, steps, k - 1), Grid(lo, hi, steps, k);
    assert f(l) <= f(x) <= f(r) || f(l) >= f(x) >= f(r);
  }

  lemma {:induction false} QuietSign(f: real -> real, lo: real, hi: real, steps: nat, n: nat)
    requires steps > 0 && n <= steps && QuietUpTo(f, lo, hi, steps, n)
    ensures Negative(f, Grid(lo, hi, steps, n)) == Negative(f, Grid(lo, hi, steps, 0))
  {
    hide Grid;
    if n > 0 {
      QuietSign(f, lo, hi, steps, n - 1);
      assert QuietCell(f, lo, hi, steps, n);
    }
  }

  /** Up to the end of the first `n` cells the curve keeps its sign, and it has no
      zero there unless the end is one. */
  lemma QuietStretch(f: real -> real, lo: real, hi: real, steps: nat, n: nat, x: real)
    requires lo < hi && 0 < n <= steps && QuietUpTo(f, lo, hi, steps, n) && CellwiseMonotone(f, lo, hi, steps)
    requires lo <= x <= Grid(lo, hi, steps, n)
    ensures Negative(f, x) == Negative(f, lo)
    ensures f(Grid(lo, hi, steps, n)) != 0.0 ==> f(x) != 0.0
  {
    GridAscends(lo, hi, steps, n);
    var k := CellOf(lo, hi, steps, n, x);
    hide Grid;
    assert QuietCell(f, lo, hi, steps, k);
    assert k < n ==> QuietCell(f, lo, hi, steps, k + 1);
    QuietInside(f, lo, hi, steps, k, x);
    QuietSign(f, lo, hi, steps, k - 1);
  }

  /** The exposure keeps its sign over the whole window and is nowhere zero. */
  ghost predicate NoZero(f: real -> real, lo: real, hi: real) {
    forall x :: lo <= x <= hi ==> f(x) != 0.0 && Negative(f, x) == Negative(f, lo)
  }

  /** What a search that finds nothing means, for a curve that turns only at grid
      points and does not end in a zero: exactly that it has no zero and no
      change of sign in the window. Without a zero at the end nothing else can
      be passed over. */
  lemma NothingFound(f: real -> real, lo: real, hi: real, steps: nat, tol: real, flip: Option<real>)
    requires steps > 0 && lo < hi && FlipResult(f, lo, hi, steps, tol, flip)
    requires CellwiseMonotone(f, lo, hi, steps) && f(hi) != 0.0
    ensures flip.None? <==> NoZero(f, lo, hi)
  {
    GridAscends(lo, hi, steps, steps);
    hide Grid;
    if flip.None? {
      forall x | lo <= x <= hi ensures f(x) != 0.0 && Negative(f, x) == Negative(f, lo) {
        QuietStretch(f, lo, hi, steps, steps, x);
      }
    }
    if NoZero(f, lo, hi) {
      forall k | 0 < k <= steps ensures QuietCell(f, lo, hi, steps, k) {
        GridAscends(lo, hi, steps, k);
      }
    }
  }

  /** The value found is the lowest: for such a curve there is no change of sign
      before its cell, and no zero unless the cell starts with one. */
  lemma FlipIsLowest(f: real -> real, lo: real, hi: real, steps: nat, tol: real, x: real, k: nat, y: real)
    requires lo < hi && 0 < k <= steps && FlipFound(f, lo, hi, steps, tol, x, k) && CellwiseMonotone(f, lo, hi, steps)
    requires lo <= y < Grid(lo, hi, steps, k - 1)
    ensures y < x && Negative(f, y) == Negative(f, lo)
    ensures f(Grid(lo, hi, steps, k - 1)) != 0.0 ==> f(y) != 0.0
  {
    GridAscends(lo, hi, steps, k);
    GridAscends(lo, hi, steps, 1);
    hide Grid;
    QuietStretch(f, lo, hi, steps, k - 1, y);
  }

  /** The exposure falls through zero at `x`, between `a` and `b`. */
  ghost predicate FallsThrough(f: real -> real, a: real, x: real, b: real) {
    && a < x < b && f(a) > 0.0 && f(x) == 0.0 && f(b) < 0.0
    && (forall y :: a <= y <= x ==> f(y) >= 0.0)
    && (forall y :: x <= y <= b ==> f(y) <= 0.0)
  }

  /** A grid zero is returned whatever the curve does there. It is a crossing
      between its neighbours on the grid exactly when it has two and the next
      value is negative; otherwise the exposure is nowhere negative up to the
      next grid point. */
  lemma GridZeroCrosses(f: real -> real, lo: real, hi: real, steps: nat, tol: real, x: real, k: nat)
    requires lo < hi && 0 < k <= steps && FlipFound(f, lo, hi, steps, tol, x, k) && CellwiseMonotone(f, lo, hi, steps)
    requires f(Grid(lo, hi, steps, k - 1)) == 0.0
    ensures x == Grid(lo, hi, steps, k - 1) && (k == 1 ==> x == lo)
    ensures k > 1 ==>
      (FallsThrough(f, Grid(lo, hi, steps, k - 2), x, Grid(lo, hi, steps, k)) <==> f(Grid(lo, hi, steps, k)) < 0.0)
    ensures f(Grid(lo, hi, steps, k)) >= 0.0 ==> forall y :: lo <= y <= Grid(lo, hi, steps, k) ==> f(y) >= 0.0
  {
    GridAscends(lo, hi, steps, k);
    var l, r := Grid(lo, hi, steps, k - 1), Grid(lo, hi, steps, k);
    assert l == x && Monotone(f, l, r);
    forall y | lo <= y <= l ensures f(y) >= 0.0 {
      BeforeGridZero(f, lo, hi, steps, k - 1, y);
    }
    if k > 1 {
      GridAscends(lo, hi, steps, k - 1);
      assert QuietCell(f, lo, hi, steps, k - 1);
    }
    hide Grid;
  }

  lemma BeforeGridZero(f: real -> real, lo: real, hi: real, steps: nat, n: nat, y: real)
    requires lo < hi && n < steps && QuietUpTo(f, lo, hi, steps, n) && CellwiseMonotone(f, lo, hi, steps)
    requires f(Grid(lo, hi, steps, n)) == 0.0 && lo <= y <= Grid(lo, hi, steps, n)
    ensures f(y) >= 0.0
  {
    GridAscends(lo, hi, steps, 1);
    if n > 0 {
      QuietStretch(f, lo, hi, steps, n, y);
      QuietSign(f, lo, hi, steps, n);
    }
    hide Grid;
  }

  /** Without such a grid the search can pass over two crossings: this curve is
      positive at every grid point and negative between 0.25 and 0.75. */
  lemma HiddenCrossings()
    ensures var f := (x: real) => (x - 0.25) * (x - 0.75);
      && QuietUpTo(f, 0.0, 2.0, 2, 2) && f(Grid(0.0, 2.0, 2, 2)) != 0.0
      && f(0.25) == 0.0 && f(0.5) < 0.0 && f(0.75) == 0.0
      && forall tol, flip :: FlipResult(f, 0.0, 2.0, 2, tol, flip) ==> flip.None?
  {
    var f := (x: real) => (x - 0.25) * (x - 0.75);
    assert QuietCell(f, 0.0, 2.0, 2, 1) && QuietCell(f, 0.0, 2.0, 2, 2);
  }

  // ---------------------------------------------------------------- the profile

  datatype Profile = Profile(
    byStrike: seq<StrikeGamma>, total: real, totalBs: real, flip: Option<real>, counters: Counters,
    vendorRows: nat, chainSpot: Option<real>, driftPct: Option<real>)

  /** Used contracts whose exposure comes from vendor gamma. */
  predicate VendorRow(m: Model, r: Row, spot: real) {
    Live(m, r) && m.useVendor && VendorUsable(m, r, spot) && ContractGex(m, r, spot).Some?
  }

  function Underlyings(rows: seq<Row>): seq<real> {
    if rows == [] then []
    else
      var front := Underlyings(rows[..|rows| - 1]);
      var r := rows[|rows| - 1];
      if Given(r.underlying) then front + [r.underlying.value] else front
  }

  /** How far spot has moved from the price the chain was published against. */
  function DriftPct(spot: real, chainSpot: Option<real>): Option<real> {
    if chainSpot.None? || chainSpot.value == 0.0 then None
    else Some(Abs(spot - chainSpot.value) / chainSpot.value * 100.0)
  }

  /** Among the values, and none occurs more often. */
  ghost predicate MostCommon(s: seq<real>, x: real) {
    x in s && forall y :: y in s ==> multiset(s)[y] <= multiset(s)[x]
  }

  /** The first value of highest count; Python may take any of them. */
  method FindMostCommon(s: seq<real>) returns (x: real)
    requires s != []
    ensures MostCommon(s, x)
  {
    x := s[0];
    for i := 1 to |s|
      invariant x in s && forall j :: 0 <= j < i ==> multiset(s)[s[j]] <= multiset(s)[x]
    {
      if multiset(s)[s[i]] > multiset(s)[x] {
        x := s[i];
      }
    }
  }

  /** Black-Scholes exposure of the chain as a function of spot. */
  function NetCurve(m: Model, rows: seq<Row>): real -> real { s => FlatSum(BlackScholes(m), rows, s) }

  /** A contract without Black-Scholes exposure at any spot. */
  predicate Unusable(r: Row) { !HasOi(r) || r.strike <= 0.0 || r.dte <= 0 || r.iv.None? || r.iv.value <= 0.0 }

  lemma {:induction false} NoExposure(m: Model, rows: seq<Row>, spot: real)
    requires forall r :: r in rows ==> Unusable(r)
    ensures FlatSum(BlackScholes(m), rows, spot) == 0.0
  {
    if rows != [] {
      var n := |rows| - 1;
      assert rows[n] in rows;
      NoExposure(m, rows[..n], spot);
      YearsNotPositive(rows[n].dte);
    }
  }

  /** The search does not tell a crossing from a flat zero: for a chain without a
      usable contract it reports a flip at the bottom of the window. */
  lemma EmptyChainFlips(m: Model, rows: seq<Row>, lo: real, hi: real, steps: nat, tol: real, flip: Option<real>)
    requires steps > 0 && lo < hi && forall r :: r in rows ==> Unusable(r)
    requires FlipResult(NetCurve(m, rows), lo, hi, steps, tol, flip)
    ensures flip == Some(lo) && forall s :: NetCurve(m, rows)(s) == 0.0
  {
    var f := NetCurve(m, rows);
    forall s ensures f(s) == 0.0 { NoExposure(m, rows, s); }
    GridAscends(lo, hi, steps, 1);
    hide Grid, FlatSum, NetCurve;
    assert !QuietCell(f, lo, hi, steps, 1);
  }

  lemma NoOiNoGex(m: Model, r: Row, spot: real)
    ensures ContractGex(m, r, spot).Some? ==> HasOi(r)
  {
  }

  lemma NothingCounted(m: Model, spot: real)
    ensures Counted(m, [], spot) == Counters(0, 0, 0, 0)
  {
  }

  /** The pass of `gamma_profile` over the contracts. */
  method ScanRows(m: Model, rows: seq<Row>, spot: real)
    returns (live: seq<Row>, agg: seq<StrikeGamma>, counters: Counters, vendorRows: nat)
    ensures live == LiveRows(m, rows) && agg == Aggregate(m, live, spot) && counters == Counted(m, rows, spot)
    ensures vendorRows == Many(rows, r => VendorRow(m, r, spot))
  {
    hide Counted, ContractGex, AddTo;
    live, agg, counters, vendorRows := [], [], Counters(0, 0, 0, 0), 0;
    assert Counted(m, rows[..0], spot) == counters by { NothingCounted(m, spot); }
    for i := 0 to |rows|
      invariant live == LiveRows(m, rows[..i]) && agg == Aggregate(m, live, spot)
      invariant counters == Counted(m, rows[..i], spot) && vendorRows == Many(rows[..i], r => VendorRow(m, r, spot))
    {
      assert rows[..i + 1][..i] == rows[..i];
      var r := rows[i];
      StatusesAppend(m, rows, i, spot);
      NoOiNoGex(m, r, spot);
      if !Live(m, r) {
        counters := counters.(zeroDte := counters.zeroDte + 1);
      } else {
        assert (live + [r])[..|live|] == live;
        live := live + [r];
        var gex := ContractGex(m, r, spot);
        if !HasOi(r) {
          counters := counters.(noOi := counters.noOi + 1);
        } else if NoIv(r) {
          counters := counters.(noIv := counters.noIv + 1);
        }
        if gex.Some? {
          counters := counters.(used := counters.used + 1);
          if m.useVendor && VendorUsable(m, r, spot) {
            vendorRows := vendorRows + 1;
          }
          agg := AddTo(agg, r.strike, r.side, gex.value);
        }
      }
    }
    assert rows[..|rows|] == rows;
  }

  /** `gamma_profile`. The source raises on a spot that is not positive. */
  method GammaProfile(m: Model, rows: seq<Row>, spot: real, loPct: real, hiPct: real) returns (profile: Option<Profile>)
    ensures profile.None? <==> spot <= 0.0
    ensures profile.Some? ==>
              var p, live := profile.value, LiveRows(m, rows);
              && p.byStrike == ByStrike(m, live, spot)
              && p.total == FlatSum(m, live, spot)
              && p.totalBs == FlatSum(BlackScholes(m), live, spot)
              && p.counters == Counted(m, rows, spot)
              && FlipResult(NetCurve(m, live), spot * loPct, spot * hiPct, 48, 0.5, p.flip)
              && p.vendorRows == Many(rows, r => VendorRow(m, r, spot))
              && (p.chainSpot.None? <==> Underlyings(rows) == [])
              && (p.chainSpot.Some? ==> MostCommon(Underlyings(rows), p.chainSpot.value))
              && p.driftPct == DriftPct(spot, p.chainSpot)
  {
    hide SumReal, FlipResult, Aggregate, Many, Underlyings, MostCommon, Counted;
    if spot <= 0.0 {
      return None;
    }
    var unders := Underlyings(rows);
    var chainSpot := None;
    if unders != [] {
      var common := FindMostCommon(unders);
      chainSpot := Some(common);
    }
    var live, agg, counters, vendorRows := ScanRows(m, rows, spot);
    var sorted := Sort(agg, NotAbove);
    TotalIsFlatSum(m, live, spot);
    var totalBs := NetAt(m, live, spot);
    var flip, _ := SolveFlip(NetCurve(m, live), spot * loPct, spot * hiPct, 48, 0.5);
    var drift := DriftPct(spot, chainSpot);
    return Some(Profile(sorted, NetSum(sorted), totalBs, flip, counters, vendorRows, chainSpot, drift));
  }
}
