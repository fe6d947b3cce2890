/** What the indicators measure (analysis/indicators.py): the recurrence of Wilder's
    smoothing, the direction of DI and RSI, and the weights of VWAP.
  */
module IndicatorMeaning {
  import opened Indicators
  import opened Options

  // ---------------------------------------------------------------- smoothing

  /** Wilder's recurrence: the new value counts once, the old average `period - 1` times. */
  lemma WilderRecurrence(x: seq<real>, period: nat, t: nat)
    requires period > 0 && t < |x|
    ensures t == 0 ==> Wilder(x, period, 0) == x[0]
    ensures t > 0 ==>
      period as real * Wilder(x, period, t) == (period - 1) as real * Wilder(x, period, t - 1) + x[t]
  {
    if t > 0 {
      assert x[..t + 1][..t] == x[..t];
      var w := Wilder(x, period, t - 1);
      assert Wilder(x, period, t) == Mix(Alpha(period), w, x[t]);
      hide Wilder, Smooth;
      Recurrence(period, w, x[t]);
    }
  }

  lemma Recurrence(period: nat, w: real, x: real)
    requires period > 0
    ensures period as real * Mix(Alpha(period), w, x) == (period - 1) as real * w + x
  {
    var p, a := period as real, Alpha(period);
    assert p * a == 1.0;
    assert (period - 1) as real == p - 1.0;
    assert p * ((1.0 - a) * w) == (p - p * a) * w;
    assert p * (a * x) == (p * a) * x;
  }

  // ---------------------------------------------------------------- direction

  lemma AllZero(x: seq<real>, period: nat, t: nat)
    requires period > 0 && t < |x| && forall i :: 0 <= i <= t ==> x[i] == 0.0
    ensures Wilder(x, period, t) == 0.0
  {
    AlphaRange(period);
    SmoothBetween(x[..t + 1], Alpha(period), 0.0, 0.0);
  }

  lemma NoMovement(dm: seq<real>, tr: seq<real>, period: nat, t: nat)
    requires period > 0 && t < |dm| && t < |tr| && forall i :: 0 <= i <= t ==> dm[i] == 0.0
    ensures Di(dm, tr, period, t) == 0.0
  {
    AllZero(dm, period, t);
    hide Wilder;
  }

  /** The plus indicator speaks of rising highs and the minus one of falling lows: where
      no high rose there is no plus, where no low fell there is no minus. */
  lemma DirectionOfDi(c: Candles, period: nat, t: nat)
    requires SameLength(c) && period > 0 && t < |c.high|
    ensures (forall i :: 0 < i <= t ==> c.high[i] <= c.high[i - 1]) ==> PlusDi(c, period, t) == 0.0
    ensures (forall i :: 0 < i <= t ==> c.low[i] >= c.low[i - 1]) ==> MinusDi(c, period, t) == 0.0
  {
    DiIs(c, period, t);
    var p, m, r := PlusDm(c), MinusDm(c), TrueRange(c);
    assert |p| == |m| == |r| == |c.high|;
    hide Di, PlusDi, MinusDi;
    if forall i :: 0 < i <= t ==> c.high[i] <= c.high[i - 1] { NoMovement(p, r, period, t); }
    if forall i :: 0 < i <= t ==> c.low[i] >= c.low[i - 1] { NoMovement(m, r, period, t); }
  }

  /** The changes of a series from one bar to the next. */
  function Changes(close: seq<real>): seq<real> {
    seq(if close == [] then 0 else |close| - 1, i requires 0 <= i < |close| - 1 => close[i + 1] - close[i])
  }

  lemma GainsLessLosses(close: seq<real>, period: nat, t: nat)
    requires period > 0 && 0 < t < |close|
    ensures AvgGain(close, period, t) == Wilder(Changes(close), period, t - 1) + AvgLoss(close, period, t)
  {
    var x, l := Changes(close)[..t], Losses(close)[..t];
    assert Gains(close)[..t] == Plus(x, l);
    SmoothAdds(x, l, Alpha(period));
  }

  /** RSI is above 50 exactly when the smoothed change is upward, and below 50 exactly
      when it is downward, wherever there were losses. */
  lemma DirectionOfRsi(close: seq<real>, period: nat, t: nat)
    requires period > 0 && 0 < t < |close| && AvgLoss(close, period, t) != 0.0
    ensures Rsi(close, period, t) > 50.0 <==> Wilder(Changes(close), period, t - 1) > 0.0
    ensures Rsi(close, period, t) < 50.0 <==> Wilder(Changes(close), period, t - 1) < 0.0
  {
    GainsLessLosses(close, period, t);
    RsiBounds(close, period, t);
    hide Rsi, AvgGain, AvgLoss, Wilder, Changes;
    Share(AvgGain(close, period, t), AvgLoss(close, period, t));
  }

  lemma Share(g: real, l: real)
    requires g >= 0.0 && l > 0.0
    ensures 100.0 * g / (g + l) > 50.0 <==> g > l
    ensures 100.0 * g / (g + l) < 50.0 <==> g < l
  {
    var q, s := 100.0 * g / (g + l), g + l;
    assert q * s == 100.0 * g;
    assert (q - 50.0) * s == q * s - 50.0 * s;
    var x := q - 50.0;
    assert x * s == 50.0 * (g - l);
    SameSign(x, s);
    assert x > 0.0 <==> 50.0 * (g - l) > 0.0;
    assert x < 0.0 <==> 50.0 * (g - l) < 0.0;
  }

  lemma SameSign(x: real, s: real)
    requires s > 0.0
    ensures x > 0.0 <==> x * s > 0.0
    ensures x < 0.0 <==> x * s < 0.0
  {
    if x > 0.0 { assert x * s > 0.0; }
    if x < 0.0 { assert (-x) * s > 0.0; }
  }

  // ---------------------------------------------------------------- VWAP

  function Typical(b: Bar): real { (b.high + b.low + b.close) / 3.0 }

  lemma FirstOfDay(bars: seq<Bar>, sessionOnly: bool)
    requires bars != []
    requires var b := bars[|bars| - 1];
      && CumVolume(bars, b.day, sessionOnly) == b.volume > 0
      && CumPv(bars, b.day, sessionOnly) == Typical(b) * b.volume as real
    ensures Vwap(bars, sessionOnly) == Some(Typical(bars[|bars| - 1]))
  {
    var b := bars[|bars| - 1];
    hide CumVolume, CumPv, Typical;
    var pv, v, x := CumPv(bars, b.day, sessionOnly), CumVolume(bars, b.day, sessionOnly), Typical(b);
    assert Vwap(bars, sessionOnly) == Some(pv / v as real);
    Whole(pv, x, v as real);
  }

  lemma Whole(pv: real, x: real, v: real)
    requires pv == x * v && v > 0.0
    ensures pv / v == x
  {
    Divided(x, v);
  }

  /** A bar that counts enters the day's VWAP with its typical price, weighted by its
      volume; the first one of a day sets it, and one outside the session leaves
      it as it is. */
  lemma VwapRunning(bars: seq<Bar>, sessionOnly: bool)
    requires bars != []
    ensures var b, front := bars[|bars| - 1], bars[..|bars| - 1];
      var before := CumVolume(front, b.day, sessionOnly);
      && (before == 0 && b.volume > 0 && (b.regular || !sessionOnly) ==> Vwap(bars, sessionOnly) == Some(Typical(b)))
      && (before > 0 && front[|front| - 1].day == b.day ==>
            && Vwap(front, sessionOnly).Some? && Vwap(bars, sessionOnly).Some?
            && (if b.regular || !sessionOnly then
                  Vwap(bars, sessionOnly).value * (before + b.volume) as real ==
                  Vwap(front, sessionOnly).value * before as real + Typical(b) * b.volume as real
                else Vwap(bars, sessionOnly) == Vwap(front, sessionOnly)))
  {
    var b, front := bars[|bars| - 1], bars[..|bars| - 1];
    var before := CumVolume(front, b.day, sessionOnly);
    assert Pv(b) == Typical(b) * b.volume as real;
    if before == 0 {
      NoVolume(front, b.day, sessionOnly);
      if b.volume > 0 && (b.regular || !sessionOnly) {
        FirstOfDay(bars, sessionOnly);
      }
    } else if front[|front| - 1].day == b.day {
      hide Pv, Typical;
      Multiplied(CumPv(front, b.day, sessionOnly), before as real);
      Multiplied(CumPv(bars, b.day, sessionOnly), CumVolume(bars, b.day, sessionOnly) as real);
    }
  }

  lemma {:induction false} NoVolume(bars: seq<Bar>, day: int, sessionOnly: bool)
    requires CumVolume(bars, day, sessionOnly) == 0
    ensures CumPv(bars, day, sessionOnly) == 0.0
  {
    if bars != [] { NoVolume(bars[..|bars| - 1], day, sessionOnly); }
  }

  lemma Divided(x: real, v: real)
    requires v > 0.0
    ensures x * v / v == x
  {
    var q := x * v / v;
    assert q * v == x * v;
    assert (q - x) * v == 0.0;
  }

  lemma Multiplied(x: real, v: real)
    requires v != 0.0
    ensures x / v * v == x
  {
  }
}
