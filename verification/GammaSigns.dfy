/** Sign and size of gamma exposure (analysis/gamma_exposure.py): calls dampen, puts
    amplify, and exposure is proportional to open interest.
  */
module GammaSigns {
  import opened GammaExposure
  import opened Numbers
  import opened Options
  import opened Sequences

  /** Gamma is never negative, as a formula and as published. */
  ghost predicate NonNegativeGamma(m: Model) {
    forall s, k, t, v, r :: m.formula(s, k, t, v, r) >= 0.0
  }

  predicate Sound(r: Row) {
    && (r.vendorGamma.Some? ==> r.vendorGamma.value >= 0.0)
    && (r.openInterest.Some? ==> r.openInterest.value >= 0)
    && r.multiplier >= 0.0
  }

  lemma Product(g: real, oi: real, multiplier: real, spot: real)
    requires g >= 0.0 && oi >= 0.0 && multiplier >= 0.0
    ensures g * oi * multiplier * spot * spot * 0.01 >= 0.0
  {
    assert g * oi >= 0.0;
    assert g * oi * multiplier >= 0.0;
    var x := g * oi * multiplier;
    Square(spot);
    assert x * (spot * spot) >= 0.0;
    assert x * spot * spot == x * (spot * spot);
  }

  lemma Square(x: real)
    ensures x * x >= 0.0
  {
    if x < 0.0 { assert (-x) * (-x) >= 0.0; }
  }

  /** A call's exposure is at least 0, a put's at most 0. */
  lemma GexSign(m: Model, r: Row, spot: real)
    requires NonNegativeGamma(m) && Sound(r)
    ensures if r.side == Call then GexOrZero(m, r, spot) >= 0.0 else GexOrZero(m, r, spot) <= 0.0
  {
    var g := GammaOf(m, r, spot);
    if HasOi(r) && g.Some? {
      assert g.value >= 0.0;
      Product(g.value, r.openInterest.value as real, r.multiplier, spot);
    }
  }

  lemma {:induction false} SumSign(rows: seq<Row>, f: Row -> real)
    ensures (forall r :: r in rows ==> f(r) >= 0.0) ==> SumReal(rows, f) >= 0.0
    ensures (forall r :: r in rows ==> f(r) <= 0.0) ==> SumReal(rows, f) <= 0.0
  {
    if rows != [] {
      var n := |rows| - 1;
      assert rows == rows[..n] + [rows[n]];
      SumSign(rows[..n], f);
    }
  }

  ghost predicate SoundChain(m: Model, rows: seq<Row>) {
    NonNegativeGamma(m) && forall r :: r in rows ==> Sound(r)
  }

  /** In every profile each strike's call exposure is at least 0 and its put exposure
      at most 0. */
  lemma StrikeSigns(m: Model, rows: seq<Row>, spot: real)
    requires SoundChain(m, rows)
    ensures forall e :: e in ByStrike(m, rows, spot) ==> e.call >= 0.0 && e.put <= 0.0
  {
    StrikesExact(m, rows, spot);
    hide ByStrike, GexOrZero;
    forall e | e in ByStrike(m, rows, spot) ensures e.call >= 0.0 && e.put <= 0.0 {
      forall r | r in rows
        ensures SideGex(m, spot, e.strike, Call)(r) >= 0.0 && SideGex(m, spot, e.strike, Put)(r) <= 0.0
      {
        GexSign(m, r, spot);
      }
      SumSign(rows, SideGex(m, spot, e.strike, Call));
      SumSign(rows, SideGex(m, spot, e.strike, Put));
    }
  }

  lemma FlatSign(m: Model, rows: seq<Row>, side: Side, spot: real)
    requires SoundChain(m, rows) && forall r :: r in rows ==> r.side == side
    ensures if side == Call then FlatSum(m, rows, spot) >= 0.0 else FlatSum(m, rows, spot) <= 0.0
  {
    hide GexOrZero;
    forall r | r in rows ensures if side == Call then GexAt(m, spot)(r) >= 0.0 else GexAt(m, spot)(r) <= 0.0 {
      GexSign(m, r, spot);
    }
    SumSign(rows, GexAt(m, spot));
  }

  /** A chain of calls dampens at every spot, a chain of puts amplifies: in both
      totals and along the whole curve of the flip search. */
  lemma OneSidedChain(m: Model, rows: seq<Row>, side: Side, spot: real)
    requires SoundChain(m, rows) && forall r :: r in rows ==> r.side == side
    ensures side == Call ==>
      FlatSum(m, rows, spot) >= 0.0 && FlatSum(BlackScholes(m), rows, spot) >= 0.0
      && forall s :: NetCurve(m, rows)(s) >= 0.0
    ensures side == Put ==>
      FlatSum(m, rows, spot) <= 0.0 && FlatSum(BlackScholes(m), rows, spot) <= 0.0
      && forall s :: NetCurve(m, rows)(s) <= 0.0
  {
    assert SoundChain(BlackScholes(m), rows) by { assert BlackScholes(m).formula == m.formula; }
    hide SoundChain, FlatSum;
    FlatSign(m, rows, side, spot);
    forall s ensures if side == Call then FlatSum(BlackScholes(m), rows, s) >= 0.0
                     else FlatSum(BlackScholes(m), rows, s) <= 0.0
    {
      FlatSign(BlackScholes(m), rows, side, s);
    }
  }

  // ---------------------------------------------------------------- calls for puts

  function OtherSide(side: Side): Side { if side == Call then Put else Call }

  function SwapRow(r: Row): Row { r.(side := OtherSide(r.side)) }

  function SwapRows(rows: seq<Row>): seq<Row> {
    seq(|rows|, i requires 0 <= i < |rows| => SwapRow(rows[i]))
  }

  function SwapStrike(e: StrikeGamma): StrikeGamma { StrikeGamma(e.strike, -e.put, -e.call) }

  function SwapStrikes(s: seq<StrikeGamma>): seq<StrikeGamma> {
    if s == [] then [] else SwapStrikes(s[..|s| - 1]) + [SwapStrike(s[|s| - 1])]
  }

  lemma SwapGex(m: Model, r: Row, spot: real)
    ensures ContractGex(m, SwapRow(r), spot).Some? <==> ContractGex(m, r, spot).Some?
    ensures ContractGex(m, r, spot).Some? ==>
      ContractGex(m, SwapRow(r), spot).value == -ContractGex(m, r, spot).value
  {
    assert GammaOf(m, SwapRow(r), spot) == GammaOf(m, r, spot);
    hide GammaOf;
  }

  lemma SwapAppend(s: seq<StrikeGamma>, e: StrikeGamma)
    ensures SwapStrikes(s + [e]) == SwapStrikes(s) + [SwapStrike(e)]
  {
    assert (s + [e])[..|s|] == s;
  }

  lemma {:induction false} SwapAddTo(agg: seq<StrikeGamma>, strike: real, side: Side, gex: real)
    ensures AddTo(SwapStrikes(agg), strike, OtherSide(side), -gex) == SwapStrikes(AddTo(agg, strike, side, gex))
  {
    hide *;
    if agg == [] {
      AddToNothing(strike, side, gex);
      AddToNothing(strike, OtherSide(side), -gex);
      SwapSide(StrikeGamma(strike, 0.0, 0.0), side, gex);
      SwapAppend([], AddSide(StrikeGamma(strike, 0.0, 0.0), side, gex));
      assert [] + AddTo(agg, strike, side, gex) == AddTo(agg, strike, side, gex);
    } else {
      var front, e := agg[..|agg| - 1], agg[|agg| - 1];
      assert agg == front + [e];
      AddToLast(front, e, strike, side, gex);
      SwapAppend(front, e);
      AddToLast(SwapStrikes(front), SwapStrike(e), strike, OtherSide(side), -gex);
      SwapSide(e, side, gex);
      if e.strike == strike {
        SwapAppend(front, AddSide(e, side, gex));
      } else {
        SwapAddTo(front, strike, side, gex);
        SwapAppend(AddTo(front, strike, side, gex), e);
      }
    }
  }

  lemma AddToNothing(strike: real, side: Side, gex: real)
    ensures AddTo([], strike, side, gex) == [AddSide(StrikeGamma(strike, 0.0, 0.0), side, gex)]
    ensures SwapStrikes([]) == []
  {
  }

  lemma AddToLast(front: seq<StrikeGamma>, e: StrikeGamma, strike: real, side: Side, gex: real)
    ensures AddTo(front + [e], strike, side, gex) ==
            if e.strike == strike then front + [AddSide(e, side, gex)] else AddTo(front, strike, side, gex) + [e]
  {
    hide AddSide;
    assert (front + [e])[..|front|] == front;
  }

  lemma SwapSide(e: StrikeGamma, side: Side, gex: real)
    ensures SwapStrike(AddSide(e, side, gex)) == AddSide(SwapStrike(e), OtherSide(side), -gex)
    ensures SwapStrike(e).strike == e.strike
    ensures SwapStrike(StrikeGamma(e.strike, 0.0, 0.0)) == StrikeGamma(e.strike, 0.0, 0.0)
  {
  }

  lemma {:induction false} SwapAggregate(m: Model, rows: seq<Row>, spot: real)
    ensures Aggregate(m, SwapRows(rows), spot) == SwapStrikes(Aggregate(m, rows, spot))
  {
    hide *;
    if rows == [] {
      NothingToSwap(m, spot);
    } else {
      var n := |rows| - 1;
      SwapAggregate(m, rows[..n], spot);
      SwapOneMore(m, rows[..n], rows[n], spot);
      assert rows == rows[..n] + [rows[n]];
    }
  }

  lemma NothingToSwap(m: Model, spot: real)
    ensures Aggregate(m, SwapRows([]), spot) == [] == SwapStrikes(Aggregate(m, [], spot))
  {
    assert SwapRows([]) == [];
  }

  lemma SwapOneMore(m: Model, front: seq<Row>, r: Row, spot: real)
    requires Aggregate(m, SwapRows(front), spot) == SwapStrikes(Aggregate(m, front, spot))
    ensures Aggregate(m, SwapRows(front + [r]), spot) == SwapStrikes(Aggregate(m, front + [r], spot))
  {
    hide *;
    SwapRowsAppend(front, r);
    AggregateAppend(m, front, r, spot);
    AggregateAppend(m, SwapRows(front), SwapRow(r), spot);
    SwapGex(m, r, spot);
    SwapKeys(r);
    var gex := ContractGex(m, r, spot);
    if gex.Some? { SwapAddTo(Aggregate(m, front, spot), r.strike, r.side, gex.value); }
  }

  lemma SwapKeys(r: Row)
    ensures SwapRow(r).strike == r.strike && SwapRow(r).side == OtherSide(r.side)
  {
  }

  lemma SwapRowsAppend(rows: seq<Row>, r: Row)
    ensures SwapRows(rows + [r]) == SwapRows(rows) + [SwapRow(r)]
  {
  }

  lemma AggregateAppend(m: Model, rows: seq<Row>, r: Row, spot: real)
    ensures Aggregate(m, rows + [r], spot) ==
            var gex := ContractGex(m, r, spot);
            if gex.None? then Aggregate(m, rows, spot) else AddTo(Aggregate(m, rows, spot), r.strike, r.side, gex.value)
  {
    hide ContractGex, AddTo;
    assert (rows + [r])[..|rows|] == rows;
  }

  lemma {:induction false} SwapInsert(s: seq<StrikeGamma>, e: StrikeGamma)
    ensures Insert(SwapStrikes(s), SwapStrike(e), NotAbove) == SwapStrikes(Insert(s, e, NotAbove))
  {
    if s == [] {
      SwapAppend([], e);
      assert [] + [e] == [e];
    } else {
      var n := |s| - 1;
      var front := SwapStrikes(s[..n]);
      assert SwapStrikes(s)[..|front|] == front && SwapStrikes(s)[|front|] == SwapStrike(s[n]);
      if NotAbove(s[n], e) {
        SwapAppend(s, e);
      } else {
        SwapInsert(s[..n], e);
        SwapAppend(Insert(s[..n], e, NotAbove), s[n]);
      }
    }
  }

  lemma {:induction false} SwapSort(s: seq<StrikeGamma>)
    ensures Sort(SwapStrikes(s), NotAbove) == SwapStrikes(Sort(s, NotAbove))
  {
    if s != [] {
      var n := |s| - 1;
      var front := SwapStrikes(s[..n]);
      assert SwapStrikes(s)[..|front|] == front && SwapStrikes(s)[|front|] == SwapStrike(s[n]);
      SwapSort(s[..n]);
      SwapInsert(Sort(s[..n], NotAbove), s[n]);
    }
  }

  lemma {:induction false} SwapNet(s: seq<StrikeGamma>)
    ensures NetSum(SwapStrikes(s)) == -NetSum(s)
  {
    if s != [] {
      var n := |s| - 1;
      SwapNet(s[..n]);
      SumRealAppend(SwapStrikes(s[..n]), SwapStrike(s[n]), Net);
    }
  }

  /** Exchanging calls and puts turns the whole profile upside down: the same strikes
      in the same order, each with its call and put exposure exchanged and negated,
      so every net and both totals are negated. */
  lemma SwapProfile(m: Model, rows: seq<Row>, spot: real)
    ensures ByStrike(m, SwapRows(rows), spot) == SwapStrikes(ByStrike(m, rows, spot))
    ensures FlatSum(m, SwapRows(rows), spot) == -FlatSum(m, rows, spot)
    ensures FlatSum(BlackScholes(m), SwapRows(rows), spot) == -FlatSum(BlackScholes(m), rows, spot)
  {
    SwapBasis(m, rows, spot);
    SwapBasis(BlackScholes(m), rows, spot);
  }

  lemma SwapBasis(m: Model, rows: seq<Row>, spot: real)
    ensures ByStrike(m, SwapRows(rows), spot) == SwapStrikes(ByStrike(m, rows, spot))
    ensures FlatSum(m, SwapRows(rows), spot) == -FlatSum(m, rows, spot)
  {
    SwapAggregate(m, rows, spot);
    SwapSort(Aggregate(m, rows, spot));
    SwapNet(ByStrike(m, rows, spot));
    hide Sort, Aggregate, FlatSum, NetSum;
    TotalIsFlatSum(m, rows, spot);
    TotalIsFlatSum(m, SwapRows(rows), spot);
  }

  // ---------------------------------------------------------------- proportion

  function ScaleRow(r: Row, n: int): Row {
    r.(openInterest := if r.openInterest.Some? then Some(r.openInterest.value * n) else None)
  }

  function ScaleRows(rows: seq<Row>, n: int): seq<Row> {
    seq(|rows|, i requires 0 <= i < |rows| => ScaleRow(rows[i], n))
  }

  lemma ScaleGex(m: Model, r: Row, spot: real, n: int)
    ensures GexOrZero(m, ScaleRow(r, n), spot) == n as real * GexOrZero(m, r, spot)
  {
    assert GammaOf(m, ScaleRow(r, n), spot) == GammaOf(m, r, spot);
    var g := GammaOf(m, r, spot);
    hide GammaOf;
    if HasOi(r) {
      var oi := r.openInterest.value;
      NonZero(oi, n);
      if g.Some? { ScaleProduct(g.value, oi, n, r.multiplier, spot); }
    }
  }

  lemma NonZero(x: int, n: int)
    requires x != 0
    ensures x * n == 0 <==> n == 0
  {
    if n > 0 && x > 0 { assert x * n > 0; }
    if n > 0 && x < 0 { assert (-x) * n > 0; }
    if n < 0 && x > 0 { assert x * (-n) > 0; }
    if n < 0 && x < 0 { assert (-x) * (-n) > 0; }
  }

  lemma ScaleProduct(g: real, oi: int, n: int, multiplier: real, spot: real)
    ensures g * (oi * n) as real * multiplier * spot * spot * 0.01 ==
            n as real * (g * oi as real * multiplier * spot * spot * 0.01)
  {
    assert (oi * n) as real == oi as real * n as real;
    var x, y := oi as real, n as real;
    assert g * (x * y) == y * (g * x);
    assert y * (g * x) * multiplier == y * (g * x * multiplier);
    var a := g * x * multiplier;
    assert y * a * spot == y * (a * spot);
    assert y * (a * spot) * spot == y * (a * spot * spot);
    var b := a * spot * spot;
    assert y * b * 0.01 == y * (b * 0.01);
  }

  /** Multiplying every open interest by a number multiplies the total by it. */
  lemma {:induction false} ProportionalToInterest(m: Model, rows: seq<Row>, spot: real, n: int)
    ensures FlatSum(m, ScaleRows(rows, n), spot) == n as real * FlatSum(m, rows, spot)
  {
    if rows != [] {
      var k := |rows| - 1;
      ProportionalToInterest(m, rows[..k], spot, n);
      assert ScaleRows(rows, n)[..k] == ScaleRows(rows[..k], n) && ScaleRows(rows, n)[k] == ScaleRow(rows[k], n);
      ScaleGex(m, rows[k], spot, n);
      hide GexOrZero;
      Distribute(n as real, FlatSum(m, rows[..k], spot), GexOrZero(m, rows[k], spot));
    }
  }

  lemma Distribute(n: real, x: real, y: real)
    ensures n * (x + y) == n * x + n * y
  {
  }

  /** One call of open interest 100 at spot 100 with fresh vendor gamma 0.02: 20000
      dollars of dealer delta for a move of one percent. */
  lemma OneCall(m: Model, r: Row)
    requires m.useVendor && m.maxDriftPct >= 0.0
    requires r.side == Call && r.openInterest == Some(100) && r.multiplier == 100.0
    requires r.vendorGamma == Some(0.02) && r.underlying == Some(100.0)
    ensures FlatSum(m, [r], 100.0) == 20000.0
  {
    assert ContractGex(m, r, 100.0) == Some(20000.0);
    SumRealAppend([], r, GexAt(m, 100.0));
    assert [] + [r] == [r];
  }

  // ---------------------------------------------------------------- fresh and stale gamma

  /** Spot has moved from the price the row's gamma was published against by more
      than the allowed percentage. */
  predicate Stale(m: Model, r: Row, spot: real) {
    r.underlying.Some? && r.underlying.value > 0.0
    && Abs(spot - r.underlying.value) * 100.0 > m.maxDriftPct * r.underlying.value
  }

  /** Stale vendor gamma is not used: where it is stale for every contract the total
      is the Black-Scholes total. */
  lemma {:induction false} StaleChain(m: Model, rows: seq<Row>, spot: real)
    requires forall r :: r in rows ==> Stale(m, r, spot)
    ensures FlatSum(m, rows, spot) == FlatSum(BlackScholes(m), rows, spot)
  {
    if rows != [] {
      var n := |rows| - 1;
      assert rows[n] in rows;
      StaleChain(m, rows[..n], spot);
      StaleUnused(m, rows[n], spot);
      hide GexOrZero;
    }
  }

  lemma StaleUnused(m: Model, r: Row, spot: real)
    requires Stale(m, r, spot)
    ensures !VendorUsable(m, r, spot) && GexOrZero(m, r, spot) == GexOrZero(BlackScholes(m), r, spot)
  {
    if Given(r.vendorGamma) { Drifted(m, r, spot); }
    assert BsGamma(m, spot, r.strike, r.dte as real / 365.0, if r.iv.Some? then r.iv.value else 0.0) ==
           BsGamma(BlackScholes(m), spot, r.strike, r.dte as real / 365.0, if r.iv.Some? then r.iv.value else 0.0);
  }

  lemma Drifted(m: Model, r: Row, spot: real)
    requires r.underlying.Some? && r.underlying.value > 0.0 && Given(r.vendorGamma)
    ensures VendorUsable(m, r, spot) <==> !Stale(m, r, spot)
  {
    var u, a := r.underlying.value, Abs(spot - r.underlying.value);
    hide Abs;
    var q := a / u * 100.0;
    assert a / u * u == a;
    assert q * u == a * 100.0;
    assert (m.maxDriftPct - q) * u == m.maxDriftPct * u - a * 100.0;
    Sign(m.maxDriftPct - q, u);
  }

  lemma Sign(x: real, y: real)
    requires y > 0.0
    ensures x >= 0.0 <==> x * y >= 0.0
  {
    if x < 0.0 { assert (-x) * y > 0.0; }
  }

  // ---------------------------------------------------------------- which contracts

  lemma LiveAppend(m: Model, rows: seq<Row>, r: Row)
    ensures LiveRows(m, rows + [r]) == if r.dte >= m.minDte then LiveRows(m, rows) + [r] else LiveRows(m, rows)
  {
    assert (rows + [r])[..|rows|] == rows;
  }

  /** The profile is computed from exactly the contracts with at least `min_dte` days
      to go, each as often as it is listed. */
  lemma {:induction false} LiveExact(m: Model, rows: seq<Row>, r: Row)
    ensures multiset(LiveRows(m, rows))[r] == if r.dte >= m.minDte then multiset(rows)[r] else 0
  {
    if rows != [] {
      var n := |rows| - 1;
      assert rows == rows[..n] + [rows[n]];
      LiveExact(m, rows[..n], r);
      LiveAppend(m, rows[..n], rows[n]);
    }
  }
}
