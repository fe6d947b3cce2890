/** Wilder-smoothed indicators and the session VWAP (analysis/indicators.py), in
    real arithmetic. A series is a sequence; an indicator at index t is computed
    from the prefix that ends at t. A NaN that is replaced further on is written
    as the value that replaces it.
  */
module Indicators {
  import opened Numbers
  import opened Options

  function Max(x: real, y: real): real { if x >= y then x else y }

  /** `ewm(alpha=alpha, adjust=False).mean()` at the last index. */
  function Smooth(x: seq<real>, alpha: real): real
    requires x != []
  {
    var n := |x| - 1;
    if n == 0 then x[0] else Mix(alpha, Smooth(x[..n], alpha), x[n])
  }

  function Mix(alpha: real, smoothed: real, x: real): real { (1.0 - alpha) * smoothed + alpha * x }

  function Alpha(period: nat): real
    requires period > 0
  {
    1.0 / period as real
  }

  /** `_wilder` at index t. */
  function Wilder(x: seq<real>, period: nat, t: nat): real
    requires period > 0 && t < |x|
  {
    Smooth(x[..t + 1], Alpha(period))
  }

  // ---------------------------------------------------------------- smoothing

  lemma AlphaRange(period: nat)
    requires period > 0
    ensures 0.0 < Alpha(period) <= 1.0
  {
  }

  lemma MixMonotone(a: real, x: real, y: real, u: real, v: real)
    requires 0.0 <= a <= 1.0 && x <= y && u <= v
    ensures Mix(a, x, u) <= Mix(a, y, v)
  {
    assert (1.0 - a) * (y - x) >= 0.0 && a * (v - u) >= 0.0;
  }

  lemma MixSame(a: real, x: real)
    ensures Mix(a, x, x) == x
  {
  }

  /** Smoothing keeps pointwise order. */
  lemma {:induction false} SmoothMonotone(x: seq<real>, y: seq<real>, a: real)
    requires 0.0 <= a <= 1.0 && |x| == |y| > 0
    requires forall i :: 0 <= i < |x| ==> x[i] <= y[i]
    ensures Smooth(x, a) <= Smooth(y, a)
  {
    hide Mix;
    var n := |x| - 1;
    if n > 0 {
      SmoothMonotone(x[..n], y[..n], a);
      MixMonotone(a, Smooth(x[..n], a), Smooth(y[..n], a), x[n], y[n]);
    }
  }

  lemma {:induction false} SmoothBetween(x: seq<real>, a: real, lo: real, hi: real)
    requires 0.0 <= a <= 1.0 && |x| > 0
    requires forall i :: 0 <= i < |x| ==> lo <= x[i] <= hi
    ensures lo <= Smooth(x, a) <= hi
  {
    var n := |x| - 1;
    if n > 0 {
      SmoothBetween(x[..n], a, lo, hi);
      MixMonotone(a, lo, Smooth(x[..n], a), lo, x[n]);
      MixMonotone(a, Smooth(x[..n], a), hi, x[n], hi);
      MixSame(a, lo);
      MixSame(a, hi);
      hide Mix;
    }
  }

  function Plus(x: seq<real>, y: seq<real>): seq<real>
    requires |x| == |y|
  {
    seq(|x|, i requires 0 <= i < |x| => x[i] + y[i])
  }

  lemma {:induction false} SmoothAdds(x: seq<real>, y: seq<real>, a: real)
    requires |x| == |y| > 0
    ensures Smooth(Plus(x, y), a) == Smooth(x, a) + Smooth(y, a)
  {
    hide Mix;
    var n := |x| - 1;
    if n > 0 {
      assert Plus(x, y)[..n] == Plus(x[..n], y[..n]);
      SmoothAdds(x[..n], y[..n], a);
      MixAdds(a, Smooth(x[..n], a), Smooth(y[..n], a), x[n], y[n]);
    }
  }

  lemma MixAdds(a: real, x: real, y: real, u: real, v: real)
    ensures Mix(a, x + y, u + v) == Mix(a, x, u) + Mix(a, y, v)
  {
  }

  // ---------------------------------------------------------------- directional movement

  datatype Candles = Candles(high: seq<real>, low: seq<real>, close: seq<real>)

  ghost predicate SameLength(c: Candles) { |c.high| == |c.low| == |c.close| }

  /** The first bar is not upside down. */
  ghost predicate FirstBar(c: Candles) { SameLength(c) && c.high != [] && c.low[0] <= c.high[0] }

  /** Market data up to `t`: besides, every close before `t` lies between its bar's low and high. */
  ghost predicate InRange(c: Candles, t: nat)
  {
    FirstBar(c) && t < |c.high| && forall i :: 0 <= i < t ==> c.low[i] <= c.close[i] <= c.high[i]
  }

  function UpMove(c: Candles, t: nat): real
    requires SameLength(c) && 0 < t < |c.high|
  {
    c.high[t] - c.high[t - 1]
  }

  function DownMove(c: Candles, t: nat): real
    requires SameLength(c) && 0 < t < |c.high|
  {
    c.low[t - 1] - c.low[t]
  }

  function PlusDm(c: Candles): seq<real>
    requires SameLength(c)
  {
    seq(|c.high|, t requires 0 <= t < |c.high| =>
      if t > 0 && UpMove(c, t) > DownMove(c, t) && UpMove(c, t) > 0.0 then UpMove(c, t) else 0.0)
  }

  function MinusDm(c: Candles): seq<real>
    requires SameLength(c)
  {
    seq(|c.high|, t requires 0 <= t < |c.high| =>
      if t > 0 && DownMove(c, t) > UpMove(c, t) && DownMove(c, t) > 0.0 then DownMove(c, t) else 0.0)
  }

  /** `true_range`: the first bar has no previous close, and the maximum skips NaN. */
  function TrueRange(c: Candles): seq<real>
    requires SameLength(c)
  {
    seq(|c.high|, t requires 0 <= t < |c.high| =>
      if t == 0 then c.high[0] - c.low[0]
      else Max(c.high[t] - c.low[t],
               Max(Abs(c.high[t] - c.close[t - 1]), Abs(c.low[t] - c.close[t - 1]))))
  }

  function Di(dm: seq<real>, tr: seq<real>, period: nat, t: nat): real
    requires period > 0 && t < |dm| && t < |tr|
  {
    var atr := Wilder(tr, period, t);
    if atr == 0.0 then 0.0 else 100.0 * Wilder(dm, period, t) / atr
  }

  function PlusDi(c: Candles, period: nat, t: nat): real
    requires SameLength(c) && period > 0 && t < |c.high|
  {
    Di(PlusDm(c), TrueRange(c), period, t)
  }

  function MinusDi(c: Candles, period: nat, t: nat): real
    requires SameLength(c) && period > 0 && t < |c.high|
  {
    Di(MinusDm(c), TrueRange(c), period, t)
  }

  function Dx(plus: real, minus: real): real {
    if plus + minus == 0.0 then 0.0 else 100.0 * Abs(plus - minus) / (plus + minus)
  }

  function DxSeries(c: Candles, period: nat): seq<real>
    requires SameLength(c) && period > 0
  {
    seq(|c.high|, t requires 0 <= t < |c.high| => Dx(PlusDi(c, period, t), MinusDi(c, period, t)))
  }

  function Adx(c: Candles, period: nat, t: nat): real
    requires SameLength(c) && period > 0 && t < |c.high|
  {
    Wilder(DxSeries(c, period), period, t)
  }

  lemma MovementNonNegative(c: Candles, t: nat)
    requires FirstBar(c) && t < |c.high|
    ensures PlusDm(c)[t] >= 0.0 && MinusDm(c)[t] >= 0.0 && TrueRange(c)[t] >= 0.0
  {
  }

  lemma MovementIs(c: Candles, t: nat)
    requires SameLength(c) && 0 < t < |c.high|
    ensures var u, d := UpMove(c, t), DownMove(c, t);
      && PlusDm(c)[t] == (if u > d && u > 0.0 then u else 0.0)
      && MinusDm(c)[t] == (if d > u && d > 0.0 then d else 0.0)
      && TrueRange(c)[t] ==
         Max(c.high[t] - c.low[t], Max(Abs(c.high[t] - c.close[t - 1]), Abs(c.low[t] - c.close[t - 1])))
  {
  }

  /** A bar's directional movement, up and down together, is at most its true range. */
  lemma MovementWithinRange(c: Candles, t: nat)
    requires InRange(c, t)
    ensures PlusDm(c)[t] + MinusDm(c)[t] <= TrueRange(c)[t]
  {
    hide Max, Abs, PlusDm, MinusDm, TrueRange;
    MovementNonNegative(c, t);
    if t > 0 {
      assert c.low[t - 1] <= c.close[t - 1] <= c.high[t - 1];
      MovementIs(c, t);
      RangeHolds(c.high[t], c.low[t], c.high[t - 1], c.low[t - 1], c.close[t - 1]);
    } else {
      FirstMovement(c);
    }
  }

  lemma FirstMovement(c: Candles)
    requires FirstBar(c)
    ensures PlusDm(c)[0] == 0.0 && MinusDm(c)[0] == 0.0
  {
  }

  lemma RangeHolds(high: real, low: real, high0: real, low0: real, close0: real)
    requires low0 <= close0 <= high0
    ensures var range := Max(high - low, Max(Abs(high - close0), Abs(low - close0)));
      high - high0 <= range && low0 - low <= range && (low <= high ==> 0.0 <= range)
  {
  }

  lemma DiRange(p: real, m: real, atr: real)
    requires p >= 0.0 && m >= 0.0 && p + m <= atr && atr != 0.0
    ensures 100.0 * p / atr >= 0.0 && 100.0 * m / atr >= 0.0
    ensures 100.0 * p / atr + 100.0 * m / atr <= 100.0
  {
    var x, y := 100.0 * p / atr, 100.0 * m / atr;
    assert x * atr == 100.0 * p && y * atr == 100.0 * m;
    assert (x + y) * atr == 100.0 * (p + m) <= 100.0 * atr;
  }

  /** Two non-negative series whose sum is bounded stay so when smoothed. */
  lemma SmoothedTogether(p: seq<real>, m: seq<real>, r: seq<real>, a: real)
    requires 0.0 <= a <= 1.0 && |p| == |m| == |r| > 0
    requires forall i :: 0 <= i < |p| ==> p[i] >= 0.0 && m[i] >= 0.0 && p[i] + m[i] <= r[i]
    ensures Smooth(p, a) >= 0.0 && Smooth(m, a) >= 0.0 && Smooth(p, a) + Smooth(m, a) <= Smooth(r, a)
  {
    SmoothNonNegative(p, a);
    SmoothNonNegative(m, a);
    SmoothAdds(p, m, a);
    SmoothMonotone(Plus(p, m), r, a);
  }

  lemma {:induction false} SmoothNonNegative(x: seq<real>, a: real)
    requires 0.0 <= a <= 1.0 && |x| > 0 && forall i :: 0 <= i < |x| ==> x[i] >= 0.0
    ensures Smooth(x, a) >= 0.0
  {
    var n := |x| - 1;
    if n > 0 {
      SmoothNonNegative(x[..n], a);
      MixMonotone(a, 0.0, Smooth(x[..n], a), 0.0, x[n]);
    }
  }

  /** Both directional indicators are at least 0 as long as the first bar is not
      upside down. */
  lemma DirectionalNonNegative(c: Candles, period: nat, t: nat)
    requires FirstBar(c) && period > 0 && t < |c.high|
    ensures 0.0 <= PlusDi(c, period, t) && 0.0 <= MinusDi(c, period, t)
  {
    var p, m, r := PlusDm(c), MinusDm(c), TrueRange(c);
    forall i | 0 <= i <= t ensures p[i] >= 0.0 && m[i] >= 0.0 && r[i] >= 0.0 { MovementNonNegative(c, i); }
    assert |p| == |m| == |r| == |c.high|;
    DiIs(c, period, t);
    hide *;
    DiNonNegative(p, r, period, t);
    DiNonNegative(m, r, period, t);
  }

  lemma DiNonNegative(dm: seq<real>, tr: seq<real>, period: nat, t: nat)
    requires period > 0 && t < |dm| && t < |tr| && forall i :: 0 <= i <= t ==> dm[i] >= 0.0 && tr[i] >= 0.0
    ensures Di(dm, tr, period, t) >= 0.0
  {
    hide Smooth, Alpha;
    AlphaRange(period);
    SmoothNonNegative(dm[..t + 1], Alpha(period));
    SmoothNonNegative(tr[..t + 1], Alpha(period));
    Ratio(Wilder(dm, period, t), Wilder(tr, period, t));
  }

  lemma Ratio(x: real, y: real)
    requires x >= 0.0 && y >= 0.0
    ensures y != 0.0 ==> 100.0 * x / y >= 0.0
  {
    if y != 0.0 {
      var q := 100.0 * x / y;
      assert q * y == 100.0 * x;
    }
  }

  /** Together they are at most 100 wherever no bar so far moved further than its
      true range. */
  lemma DirectionalSum(c: Candles, period: nat, t: nat)
    requires FirstBar(c) && period > 0 && t < |c.high|
    requires forall i :: 0 <= i <= t ==> PlusDm(c)[i] + MinusDm(c)[i] <= TrueRange(c)[i]
    ensures PlusDi(c, period, t) + MinusDi(c, period, t) <= 100.0
  {
    var p, m, r := PlusDm(c), MinusDm(c), TrueRange(c);
    forall i | 0 <= i <= t ensures p[i] >= 0.0 && m[i] >= 0.0 && p[i] + m[i] <= r[i] {
      MovementNonNegative(c, i);
    }
    hide *;
    DirectionalBoundsOf(p, m, r, period, t);
    DiIs(c, period, t);
  }

  /** With period 1 that is exact, bar by bar. */
  lemma DirectionalExact(c: Candles, t: nat)
    requires FirstBar(c) && 0 < t < |c.high|
    ensures PlusDi(c, 1, t) + MinusDi(c, 1, t) <= 100.0 <==>
            TrueRange(c)[t] == 0.0 || PlusDm(c)[t] + MinusDm(c)[t] <= TrueRange(c)[t]
  {
    MovementNonNegative(c, t);
    hide PlusDm, MinusDm, TrueRange, PlusDi, MinusDi;
    var p, m, r := PlusDm(c), MinusDm(c), TrueRange(c);
    DiIs(c, 1, t);
    DiOne(p, r, t);
    DiOne(m, r, t);
    hide Di;
    if r[t] != 0.0 { SumOfRatios(p[t], m[t], r[t]); }
  }

  lemma DiOne(dm: seq<real>, tr: seq<real>, t: nat)
    requires t < |dm| && t < |tr|
    ensures Di(dm, tr, 1, t) == if tr[t] == 0.0 then 0.0 else 100.0 * dm[t] / tr[t]
  {
    assert Alpha(1) == 1.0;
    hide Smooth, Alpha;
    LastOnly(dm[..t + 1]);
    LastOnly(tr[..t + 1]);
  }

  lemma LastOnly(x: seq<real>)
    requires x != []
    ensures Smooth(x, 1.0) == x[|x| - 1]
  {
  }

  lemma SumOfRatios(p: real, m: real, r: real)
    requires r > 0.0
    ensures 100.0 * p / r + 100.0 * m / r <= 100.0 <==> p + m <= r
  {
    var x, y := 100.0 * p / r, 100.0 * m / r;
    assert x * r == 100.0 * p && y * r == 100.0 * m;
    assert (x + y) * r == 100.0 * (p + m);
    assert (100.0 - (x + y)) * r == 100.0 * (r - (p + m));
    Sign(100.0 - (x + y), r);
  }

  lemma Sign(x: real, r: real)
    requires r > 0.0
    ensures x >= 0.0 <==> x * r >= 0.0
  {
    if x < 0.0 { assert (-x) * r > 0.0; }
  }

  predicate SumBounded(c: Candles, period: nat, t: nat)
    requires SameLength(c) && period > 0 && t < |c.high|
  {
    PlusDi(c, period, t) + MinusDi(c, period, t) <= 100.0
  }

  predicate MovesWithin(c: Candles, t: nat)
    requires SameLength(c) && t < |c.high|
  {
    PlusDm(c)[t] + MinusDm(c)[t] <= TrueRange(c)[t]
  }

  /** For a chart whose true range is positive wherever a bar moved, that is the
      exact condition for all periods: the sum stays within 100 everywhere if
      and only if no bar moves further than its true range. */
  lemma DirectionalAllPeriods(c: Candles)
    requires FirstBar(c)
    requires forall i :: 0 <= i < |c.high| && TrueRange(c)[i] == 0.0 ==> PlusDm(c)[i] + MinusDm(c)[i] == 0.0
    ensures (forall period: nat, t: nat :: period > 0 && t < |c.high| ==> SumBounded(c, period, t)) <==>
            (forall t: nat :: t < |c.high| ==> MovesWithin(c, t))
  {
    if forall period: nat, t: nat :: period > 0 && t < |c.high| ==> SumBounded(c, period, t) {
      forall t: nat | t < |c.high| ensures MovesWithin(c, t) {
        assert SumBounded(c, 1, t);
        MovementNonNegative(c, t);
        if t > 0 { DirectionalExact(c, t); } else { FirstMovement(c); }
      }
    }
    if forall t: nat :: t < |c.high| ==> MovesWithin(c, t) {
      forall period: nat, t: nat | period > 0 && t < |c.high| ensures SumBounded(c, period, t) {
        forall i | 0 <= i <= t ensures PlusDm(c)[i] + MinusDm(c)[i] <= TrueRange(c)[i] {
          assert MovesWithin(c, i);
        }
        DirectionalSum(c, period, t);
      }
    }
  }

  /** Both directional indicators are at least 0 and together at most 100. */
  lemma DirectionalBounds(c: Candles, period: nat, t: nat)
    requires InRange(c, t) && period > 0
    ensures 0.0 <= PlusDi(c, period, t) && 0.0 <= MinusDi(c, period, t)
    ensures PlusDi(c, period, t) + MinusDi(c, period, t) <= 100.0
  {
    DirectionalNonNegative(c, period, t);
    forall i | 0 <= i <= t ensures PlusDm(c)[i] + MinusDm(c)[i] <= TrueRange(c)[i] {
      MovementWithinRange(c, i);
    }
    hide *;
    DirectionalSum(c, period, t);
  }

  lemma DiIs(c: Candles, period: nat, t: nat)
    requires SameLength(c) && period > 0 && t < |c.high|
    ensures PlusDi(c, period, t) == Di(PlusDm(c), TrueRange(c), period, t)
    ensures MinusDi(c, period, t) == Di(MinusDm(c), TrueRange(c), period, t)
  {
  }

  lemma DirectionalBoundsOf(p: seq<real>, m: seq<real>, r: seq<real>, period: nat, t: nat)
    requires |p| == |m| == |r| && period > 0 && t < |p|
    requires forall i :: 0 <= i <= t ==> p[i] >= 0.0 && m[i] >= 0.0 && p[i] + m[i] <= r[i]
    ensures 0.0 <= Di(p, r, period, t) && 0.0 <= Di(m, r, period, t)
    ensures Di(p, r, period, t) + Di(m, r, period, t) <= 100.0
  {
    AlphaRange(period);
    SmoothedTogether(p[..t + 1], m[..t + 1], r[..t + 1], Alpha(period));
    if Wilder(r, period, t) != 0.0 {
      DiRange(Wilder(p, period, t), Wilder(m, period, t), Wilder(r, period, t));
    }
  }

  lemma DxRange(p: real, m: real)
    requires p >= 0.0 && m >= 0.0
    ensures 0.0 <= Dx(p, m) <= 100.0
  {
    if p + m != 0.0 {
      var d := 100.0 * Abs(p - m) / (p + m);
      assert d * (p + m) == 100.0 * Abs(p - m) <= 100.0 * (p + m);
    }
  }

  /** ADX needs nothing of the closes. */
  lemma AdxBounds(c: Candles, period: nat, t: nat)
    requires FirstBar(c) && period > 0 && t < |c.high|
    ensures 0.0 <= Adx(c, period, t) <= 100.0
  {
    AlphaRange(period);
    hide PlusDi, MinusDi, Dx;
    var d := DxSeries(c, period)[..t + 1];
    forall i | 0 <= i < |d| ensures 0.0 <= d[i] <= 100.0 {
      DirectionalNonNegative(c, period, i);
      DxRange(PlusDi(c, period, i), MinusDi(c, period, i));
    }
    SmoothBetween(d, Alpha(period), 0.0, 100.0);
  }

  /** A close outside its bar can lift a directional indicator above 100: the
      second bar opens far above a first bar whose close was above its high. */
  lemma BoundsNeedRange()
    ensures var c := Candles([0.0, 10.0], [0.0, 10.0], [9.0, 10.0]);
            FirstBar(c) && !InRange(c, 1) && PlusDi(c, 1, 1) == 1000.0
  {
    var c := Candles([0.0, 10.0], [0.0, 10.0], [9.0, 10.0]);
    assert c.close[0] > c.high[0];
    assert PlusDm(c)[..2] == [0.0, 10.0] && TrueRange(c)[..2] == [0.0, 1.0];
    assert Smooth([0.0, 10.0], 1.0) == 10.0 && Smooth([0.0, 1.0], 1.0) == 1.0;
  }

  /** A first bar upside down can push ADX below 0. */
  lemma AdxNeedsFirstBar()
    ensures var c := Candles([0.0, 10.0], [5.0, 10.0], [10.0, 10.0]);
            SameLength(c) && !FirstBar(c) && Adx(c, 2, 1) == -50.0
  {
    var c := Candles([0.0, 10.0], [5.0, 10.0], [10.0, 10.0]);
    UpsideDown(c);
    hide PlusDm, MinusDm, TrueRange, Smooth, Di;
    DiIs(c, 2, 0);
    DiIs(c, 2, 1);
    DiTwo(0.0, 10.0, -5.0, 0.0);
    DiTwo(0.0, 0.0, -5.0, 0.0);
    hide PlusDi, MinusDi;
    assert DxSeries(c, 2) == [0.0, -100.0];
    WilderTwo(0.0, -100.0);
  }

  lemma UpsideDown(c: Candles)
    requires c == Candles([0.0, 10.0], [5.0, 10.0], [10.0, 10.0])
    ensures PlusDm(c) == [0.0, 10.0] && MinusDm(c) == [0.0, 0.0] && TrueRange(c) == [-5.0, 0.0]
  {
    MovementIs(c, 1);
  }

  lemma WilderTwo(x: real, y: real)
    ensures Wilder([x, y], 2, 0) == x && Wilder([x, y], 2, 1) == 0.5 * x + 0.5 * y
  {
    assert [x, y][..1] == [x] && [x, y][..2] == [x, y];
    assert Alpha(2) == 0.5;
  }

  lemma DiTwo(a: real, b: real, u: real, v: real)
    ensures Di([a, b], [u, v], 2, 0) == if u == 0.0 then 0.0 else 100.0 * a / u
    ensures var x, y := 0.5 * a + 0.5 * b, 0.5 * u + 0.5 * v;
            Di([a, b], [u, v], 2, 1) == if y == 0.0 then 0.0 else 100.0 * x / y
  {
    hide Wilder;
    WilderTwo(a, b);
    WilderTwo(u, v);
  }

  // ---------------------------------------------------------------- mirror image

  function Negate(x: seq<real>): seq<real> {
    seq(|x|, i requires 0 <= i < |x| => -x[i])
  }

  /** The chart turned upside down. */
  function Mirror(c: Candles): Candles { Candles(Negate(c.low), Negate(c.high), Negate(c.close)) }

  /** Turning the chart upside down exchanges the two indicators and keeps ADX. */
  lemma MirrorSwaps(c: Candles, period: nat, t: nat)
    requires SameLength(c) && period > 0 && t < |c.high|
    ensures PlusDi(Mirror(c), period, t) == MinusDi(c, period, t)
    ensures MinusDi(Mirror(c), period, t) == PlusDi(c, period, t)
    ensures Adx(Mirror(c), period, t) == Adx(c, period, t)
  {
    var m := Mirror(c);
    assert SameLength(m) && |m.high| == |c.high|;
    hide Wilder, Mirror, PlusDm, MinusDm, TrueRange, Di, Dx;
    MirrorSeries(c);
    forall i | 0 <= i < |c.high| ensures DxSeries(m, period)[i] == DxSeries(c, period)[i] {
      DxSymmetric(PlusDi(c, period, i), MinusDi(c, period, i));
    }
    assert DxSeries(m, period) == DxSeries(c, period);
  }

  lemma DxSymmetric(p: real, m: real)
    ensures Dx(p, m) == Dx(m, p)
  {
    assert Abs(p - m) == Abs(m - p);
  }

  lemma MirrorSeries(c: Candles)
    requires SameLength(c)
    ensures PlusDm(Mirror(c)) == MinusDm(c) && MinusDm(Mirror(c)) == PlusDm(c)
    ensures TrueRange(Mirror(c)) == TrueRange(c)
  {
  }

  // ---------------------------------------------------------------- RSI

  function Gains(close: seq<real>): seq<real> {
    seq(if close == [] then 0 else |close| - 1, i requires 0 <= i < |close| - 1 => Max(close[i + 1] - close[i], 0.0))
  }

  function Losses(close: seq<real>): seq<real> {
    seq(if close == [] then 0 else |close| - 1, i requires 0 <= i < |close| - 1 => Max(close[i] - close[i + 1], 0.0))
  }

  /** The smoothed series start at the second bar, the first one with a change. */
  function AvgGain(close: seq<real>, period: nat, t: nat): (g: real)
    requires period > 0 && 0 < t < |close|
    ensures g >= 0.0
  {
    AlphaRange(period);
    SmoothNonNegative(Gains(close)[..t], Alpha(period));
    Wilder(Gains(close), period, t - 1)
  }

  function AvgLoss(close: seq<real>, period: nat, t: nat): (l: real)
    requires period > 0 && 0 < t < |close|
    ensures l >= 0.0
  {
    AlphaRange(period);
    SmoothNonNegative(Losses(close)[..t], Alpha(period));
    Wilder(Losses(close), period, t - 1)
  }

  /** The index for given averages; 50 where the ratio is undefined. */
  function RsiOf(g: real, l: real): real
    requires g >= 0.0 && l >= 0.0
  {
    if l == 0.0 then 50.0
    else
      RatioForm(g, l);
      100.0 - 100.0 / (1.0 + g / l)
  }

  /** `rsi` at index t. */
  function Rsi(close: seq<real>, period: nat, t: nat): real
    requires period > 0 && t < |close|
  {
    if t == 0 then 50.0 else RsiOf(AvgGain(close, period, t), AvgLoss(close, period, t))
  }

  lemma RatioForm(g: real, l: real)
    requires g >= 0.0 && l > 0.0
    ensures 1.0 + g / l > 0.0
    ensures 100.0 - 100.0 / (1.0 + g / l) == 100.0 * g / (g + l)
    ensures 0.0 <= 100.0 * g / (g + l) < 100.0
  {
    var q := g / l;
    assert q * l == g;
    assert q >= 0.0;
    var d := 1.0 + q;
    assert d * l == g + l;
    var x := 100.0 / d;
    assert x * d == 100.0;
    var y := 100.0 * g / (g + l);
    assert y * (g + l) == 100.0 * g;
    assert (100.0 - x) * (g + l) == (100.0 - x) * (d * l) == 100.0 * (g + l) - (x * d) * l == 100.0 * g;
    Cancel(100.0 - x, y, g + l);
    Quotient(100.0 * g, g + l, 0.0, 100.0);
    if y == 100.0 {
      assert false;
    }
  }

  lemma Quotient(x: real, v: real, lo: real, hi: real)
    requires v > 0.0 && lo * v <= x <= hi * v
    ensures lo <= x / v <= hi
  {
    var q := x / v;
    assert q * v == x;
    assert (q - lo) * v >= 0.0 && (hi - q) * v >= 0.0;
  }

  lemma Cancel(x: real, y: real, z: real)
    requires z > 0.0 && x * z == y * z
    ensures x == y
  {
    assert (x - y) * z == 0.0;
  }

  /** RSI lies in [0, 100], and is the share of gains in all smoothed movement
      wherever there were losses. */
  lemma RsiBounds(close: seq<real>, period: nat, t: nat)
    requires period > 0 && t < |close|
    ensures 0.0 <= Rsi(close, period, t) <= 100.0
    ensures t > 0 && AvgLoss(close, period, t) != 0.0 ==>
            var g, l := AvgGain(close, period, t), AvgLoss(close, period, t);
            Rsi(close, period, t) == 100.0 * g / (g + l) < 100.0
  {
    hide AvgGain, AvgLoss;
    if t > 0 && AvgLoss(close, period, t) != 0.0 {
      RatioForm(AvgGain(close, period, t), AvgLoss(close, period, t));
    }
  }

  lemma MirrorAverages(close: seq<real>, period: nat, t: nat)
    requires period > 0 && 0 < t < |close|
    ensures AvgGain(Negate(close), period, t) == AvgLoss(close, period, t)
    ensures AvgLoss(Negate(close), period, t) == AvgGain(close, period, t)
  {
    assert Gains(Negate(close)) == Losses(close);
    assert Losses(Negate(close)) == Gains(close);
  }

  lemma Shares(g: real, l: real)
    requires g > 0.0 && l > 0.0
    ensures 100.0 * g / (g + l) + 100.0 * l / (l + g) == 100.0
  {
    var x, y := 100.0 * g / (g + l), 100.0 * l / (l + g);
    assert x * (g + l) == 100.0 * g && y * (g + l) == 100.0 * l;
    assert (x + y) * (g + l) == 100.0 * (g + l);
    Cancel(x + y, 100.0, g + l);
  }

  lemma RsiOfSymmetry(g: real, l: real)
    requires g >= 0.0 && l >= 0.0
    ensures RsiOf(g, l) + RsiOf(l, g) == 100.0 <==> (g == 0.0 <==> l == 0.0)
  {
    if g > 0.0 && l > 0.0 {
      RatioForm(g, l);
      RatioForm(l, g);
      Shares(g, l);
    } else if l > 0.0 {
      RatioForm(g, l);
    } else if g > 0.0 {
      RatioForm(l, g);
    }
  }

  /** RSI is symmetric about 50 under turning the prices upside down, except
      exactly where one side never moved: a series that only rose reads 50. */
  lemma RsiSymmetry(close: seq<real>, period: nat, t: nat)
    requires period > 0 && 0 < t < |close|
    ensures Rsi(close, period, t) + Rsi(Negate(close), period, t) == 100.0 <==>
            (AvgGain(close, period, t) == 0.0 <==> AvgLoss(close, period, t) == 0.0)
  {
    hide AvgGain, AvgLoss;
    var g, l := AvgGain(close, period, t), AvgLoss(close, period, t);
    MirrorAverages(close, period, t);
    assert Rsi(close, period, t) + Rsi(Negate(close), period, t) == RsiOf(g, l) + RsiOf(l, g);
    hide Rsi;
    RsiOfSymmetry(g, l);
  }

  // ---------------------------------------------------------------- VWAP

  /** A bar with its UTC day and whether it lies in regular trading hours. */
  datatype Bar = Bar(day: int, regular: bool, high: real, low: real, close: real, volume: nat)

  predicate Counts(b: Bar, day: int, sessionOnly: bool) { b.day == day && (b.regular || !sessionOnly) }

  function CumVolume(bars: seq<Bar>, day: int, sessionOnly: bool): nat {
    if bars == [] then 0
    else
      var b := bars[|bars| - 1];
      CumVolume(bars[..|bars| - 1], day, sessionOnly) + (if Counts(b, day, sessionOnly) then b.volume else 0)
  }

  function Pv(b: Bar): real { (b.high + b.low + b.close) / 3.0 * b.volume as real }

  function CumPv(bars: seq<Bar>, day: int, sessionOnly: bool): real {
    if bars == [] then 0.0
    else
      var b := bars[|bars| - 1];
      CumPv(bars[..|bars| - 1], day, sessionOnly) +
      (if Counts(b, day, sessionOnly) then Pv(b) else 0.0)
  }

  /** `vwap` at the last bar: the ratio of its day's running sums, or the value
      before it while the day has no volume. */
  function Vwap(bars: seq<Bar>, sessionOnly: bool): Option<real> {
    if bars == [] then None
    else
      var day := bars[|bars| - 1].day;
      var v := CumVolume(bars, day, sessionOnly);
      if v == 0 then Vwap(bars[..|bars| - 1], sessionOnly) else Some(CumPv(bars, day, sessionOnly) / v as real)
  }

  ghost predicate Within(bars: seq<Bar>, day: int, sessionOnly: bool, lo: real, hi: real) {
    forall i :: 0 <= i < |bars| && Counts(bars[i], day, sessionOnly) ==>
      lo <= bars[i].low <= bars[i].close <= bars[i].high <= hi
  }

  lemma Weigh(b: Bar, lo: real, hi: real)
    requires lo <= b.low <= b.close <= b.high <= hi
    ensures Weighted(Pv(b), b.volume, lo, hi)
  {
    Scaled(lo, (b.high + b.low + b.close) / 3.0, b.volume as real);
    Scaled((b.high + b.low + b.close) / 3.0, hi, b.volume as real);
  }

  lemma Scaled(x: real, y: real, v: real)
    requires x <= y && v >= 0.0
    ensures x * v <= y * v
  {
    assert (y - x) * v >= 0.0;
  }

  ghost predicate Weighted(pv: real, v: nat, lo: real, hi: real) {
    lo * v as real <= pv <= hi * v as real
  }

  lemma WeightedAdds(pv: real, u: nat, p: real, v: nat, lo: real, hi: real)
    requires Weighted(pv, u, lo, hi) && Weighted(p, v, lo, hi)
    ensures Weighted(pv + p, u + v, lo, hi)
  {
    assert (u + v) as real == u as real + v as real;
  }

  lemma {:induction false} PvBounds(bars: seq<Bar>, day: int, sessionOnly: bool, lo: real, hi: real)
    requires Within(bars, day, sessionOnly, lo, hi)
    ensures Weighted(CumPv(bars, day, sessionOnly), CumVolume(bars, day, sessionOnly), lo, hi)
  {
    if bars != [] {
      var n := |bars| - 1;
      PvBounds(bars[..n], day, sessionOnly, lo, hi);
      hide Pv, Weighted;
      if Counts(bars[n], day, sessionOnly) {
        Weigh(bars[n], lo, hi);
        WeightedAdds(CumPv(bars[..n], day, sessionOnly), CumVolume(bars[..n], day, sessionOnly),
                     Pv(bars[n]), bars[n].volume, lo, hi);
      }
    }
  }

  /** While the day has traded, its VWAP lies inside any price range that holds
      the day's contributing bars; before that it repeats the previous value. */
  lemma VwapInsideDay(bars: seq<Bar>, sessionOnly: bool, lo: real, hi: real)
    requires bars != []
    requires Within(bars, bars[|bars| - 1].day, sessionOnly, lo, hi)
    ensures var day := bars[|bars| - 1].day;
            if CumVolume(bars, day, sessionOnly) == 0
            then Vwap(bars, sessionOnly) == Vwap(bars[..|bars| - 1], sessionOnly)
            else Vwap(bars, sessionOnly).Some? && lo <= Vwap(bars, sessionOnly).value <= hi
  {
    var day := bars[|bars| - 1].day;
    var v := CumVolume(bars, day, sessionOnly);
    PvBounds(bars, day, sessionOnly, lo, hi);
    hide Within, Pv, CumPv, CumVolume;
    if v != 0 {
      Quotient(CumPv(bars, day, sessionOnly), v as real, lo, hi);
    }
  }
}
