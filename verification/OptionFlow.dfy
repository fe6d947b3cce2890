/** The tick rule over historical option prints (scripts/option_flow.py). */
module OptionFlow {
  import opened Options

  // ---------------------------------------------------------------- the tick rule

  /** A print; a missing or zero size counts as zero. */
  datatype Trade = Trade(price: Option<real>, size: Option<int>)

  function Size(t: Trade): int { if t.size.Some? then t.size.value else 0 }

  /** The prices of the priced prints, in order. */
  function Prices(trades: seq<Trade>): seq<real> {
    if trades == [] then []
    else
      var t := trades[|trades| - 1];
      var front := Prices(trades[..|trades| - 1]);
      if t.price.Some? then front + [t.price.value] else front
  }

  function Sign(x: real): int { if x > 0.0 then 1 else if x < 0.0 then -1 else 0 }

  /** The sign of the last change that is not zero; 0 if there is none. */
  function LastChange(prices: seq<real>): int {
    var n := |prices| - 1;
    if n < 1 then 0
    else if prices[n] != prices[n - 1] then Sign(prices[n] - prices[n - 1])
    else LastChange(prices[..n])
  }

  /** The direction of a print: for a priced one, the last change up to it. */
  function Direction(trades: seq<Trade>, i: nat): int
    requires i < |trades|
  {
    if trades[i].price.None? then 0 else LastChange(Prices(trades[..i + 1]))
  }

  /** How many prints have the direction, and their volume. */
  function Tally(trades: seq<Trade>, direction: int): nat {
    if trades == [] then 0
    else
      var n := |trades| - 1;
      Tally(trades[..n], direction) + (if Direction(trades, n) == direction then 1 else 0)
  }

  function TallyVolume(trades: seq<Trade>, direction: int): int {
    if trades == [] then 0
    else
      var n := |trades| - 1;
      TallyVolume(trades[..n], direction) + (if Direction(trades, n) == direction then Size(trades[n]) else 0)
  }

  function TotalSize(trades: seq<Trade>): int {
    if trades == [] then 0 else TotalSize(trades[..|trades| - 1]) + Size(trades[|trades| - 1])
  }

  /** Changes between consecutive priced prints with the given sign. */
  function Ticks(prices: seq<real>, sign: int): nat {
    var n := |prices| - 1;
    if n < 1 then 0 else Ticks(prices[..n], sign) + (if Sign(prices[n] - prices[n - 1]) == sign then 1 else 0)
  }

  datatype Flow = Flow(
    buy: nat, sell: nat, unk: nat, buyV: int, sellV: int, unkV: int, upticks: nat, downticks: nat, zeroticks: nat)

  /** What the rule is documented to compute. */
  function FlowOf(trades: seq<Trade>): Flow {
    var prices := Prices(trades);
    Flow(Tally(trades, 1), Tally(trades, -1), Tally(trades, 0),
         TallyVolume(trades, 1), TallyVolume(trades, -1), TallyVolume(trades, 0),
         Ticks(prices, 1), Ticks(prices, -1), Ticks(prices, 0))
  }

  /** `tick_rule`: one pass carrying the previous price and the last direction. */
  method TickRule(trades: seq<Trade>) returns (f: Flow)
    ensures f == FlowOf(trades)
  {
    f := Flow(0, 0, 0, 0, 0, 0, 0, 0, 0);
    var prev: Option<real> := None;
    var lastDir := 0;
    NothingCarried();
    hide Carried;
    for i := 0 to |trades|
      invariant Carried(trades[..i], f, prev, lastDir)
    {
      CarriedStep(trades[..i], f, prev, lastDir, trades[i]);
      assert trades[..i + 1] == trades[..i] + [trades[i]];
      var s := Size(trades[i]);
      if trades[i].price.None? {
        f := f.(unk := f.unk + 1, unkV := f.unkV + s);
      } else {
        var p, d := trades[i].price.value, 0;
        if prev.None? {
          d := 0;
        } else if p > prev.value {
          d := 1;
          f := f.(upticks := f.upticks + 1);
        } else if p < prev.value {
          d := -1;
          f := f.(downticks := f.downticks + 1);
        } else {
          d := lastDir;
          f := f.(zeroticks := f.zeroticks + 1);
        }
        prev := Some(p);
        if d > 0 {
          lastDir := 1;
          f := f.(buy := f.buy + 1, buyV := f.buyV + s);
        } else if d < 0 {
          lastDir := -1;
          f := f.(sell := f.sell + 1, sellV := f.sellV + s);
        } else {
          f := f.(unk := f.unk + 1, unkV := f.unkV + s);
        }
      }
    }
    assert trades[..|trades|] == trades;
    CarriedFlow(trades, f, prev, lastDir);
  }

  /** What the loop carries over the prints so far. */
  ghost predicate Carried(trades: seq<Trade>, f: Flow, prev: Option<real>, lastDir: int) {
    var prices := Prices(trades);
    && f == FlowOf(trades)
    && prev == (if prices == [] then None else Some(prices[|prices| - 1]))
    && lastDir == LastChange(prices)
  }

  /** The direction of a priced print, from what is carried. */
  function TickDirection(prev: Option<real>, lastDir: int, p: real): int {
    if prev.None? then 0 else if p > prev.value then 1 else if p < prev.value then -1 else lastDir
  }

  function Book(f: Flow, d: int, s: int): Flow {
    if d > 0 then f.(buy := f.buy + 1, buyV := f.buyV + s)
    else if d < 0 then f.(sell := f.sell + 1, sellV := f.sellV + s)
    else f.(unk := f.unk + 1, unkV := f.unkV + s)
  }

  function CountTick(f: Flow, prev: Option<real>, p: real): Flow {
    if prev.None? then f
    else if p > prev.value then f.(upticks := f.upticks + 1)
    else if p < prev.value then f.(downticks := f.downticks + 1)
    else f.(zeroticks := f.zeroticks + 1)
  }

  lemma NothingCarried()
    ensures Carried([], Flow(0, 0, 0, 0, 0, 0, 0, 0, 0), None, 0)
  {
  }

  lemma CarriedFlow(trades: seq<Trade>, f: Flow, prev: Option<real>, lastDir: int)
    requires Carried(trades, f, prev, lastDir)
    ensures f == FlowOf(trades)
  {
  }

  lemma CarriedStep(trades: seq<Trade>, f: Flow, prev: Option<real>, lastDir: int, t: Trade)
    requires Carried(trades, f, prev, lastDir)
    ensures t.price.None? ==> Carried(trades + [t], Book(f, 0, Size(t)), prev, lastDir)
    ensures t.price.Some? ==>
      var d := TickDirection(prev, lastDir, t.price.value);
      Carried(trades + [t], Book(CountTick(f, prev, t.price.value), d, Size(t)), Some(t.price.value), d)
      && d in {-1, 0, 1}
  {
    FlowStep(trades, t);
    LastChangeIsSign(Prices(trades));
    hide FlowOf, Prices, LastChange, Size;
  }

  /** A print without a size counts as zero shares, any other with its size. */
  lemma TotalSizeStep(trades: seq<Trade>, t: Trade)
    ensures t.size.None? ==> TotalSize(trades + [t]) == TotalSize(trades)
    ensures t.size.Some? ==> TotalSize(trades + [t]) == TotalSize(trades) + t.size.value
  {
    assert (trades + [t])[..|trades|] == trades;
  }

  /** What one more print adds, said with the prices seen so far. */
  lemma FlowStep(trades: seq<Trade>, t: Trade)
    ensures var f, g, prices := FlowOf(trades), FlowOf(trades + [t]), Prices(trades);
            var more := if t.price.Some? then prices + [t.price.value] else prices;
            var d := if t.price.None? then 0 else LastChange(more);
            && Prices(trades + [t]) == more
            && (t.price.Some? ==> LastChange(more) == NextChange(prices, t.price.value))
            && g.buy == f.buy + (if d == 1 then 1 else 0) && g.buyV == f.buyV + (if d == 1 then Size(t) else 0)
            && g.sell == f.sell + (if d == -1 then 1 else 0) && g.sellV == f.sellV + (if d == -1 then Size(t) else 0)
            && g.unk == f.unk + (if d == 0 then 1 else 0) && g.unkV == f.unkV + (if d == 0 then Size(t) else 0)
            && g.upticks == f.upticks + Moved(prices, t, 1)
            && g.downticks == f.downticks + Moved(prices, t, -1)
            && g.zeroticks == f.zeroticks + Moved(prices, t, 0)
  {
    var prices := Prices(trades);
    PricesStep(trades, t);
    TallyStep(trades, t, 1);
    TallyStep(trades, t, -1);
    TallyStep(trades, t, 0);
    if t.price.Some? { TicksStep(prices, t); }
    hide Prices, LastChange, Tally, TallyVolume, Ticks, Size, Direction, NextChange;
  }

  lemma PricesStep(trades: seq<Trade>, t: Trade)
    ensures Prices(trades + [t]) == if t.price.Some? then Prices(trades) + [t.price.value] else Prices(trades)
  {
    assert (trades + [t])[..|trades|] == trades;
  }

  lemma TallyStep(trades: seq<Trade>, t: Trade, direction: int)
    ensures var d := if t.price.None? then 0 else LastChange(Prices(trades + [t]));
            && Tally(trades + [t], direction) == Tally(trades, direction) + (if d == direction then 1 else 0)
            && TallyVolume(trades + [t], direction) ==
               TallyVolume(trades, direction) + (if d == direction then Size(t) else 0)
  {
    var all := trades + [t];
    assert all[..|trades|] == trades && all[..|trades| + 1] == all && all[|trades|] == t;
    hide Prices, LastChange, Size;
  }

  lemma TicksStep(prices: seq<real>, t: Trade)
    requires t.price.Some?
    ensures var more := prices + [t.price.value];
            && LastChange(more) == NextChange(prices, t.price.value)
            && forall sign :: Ticks(more, sign) == Ticks(prices, sign) + Moved(prices, t, sign)
  {
    var more := prices + [t.price.value];
    assert more[..|prices|] == prices;
  }

  function NextChange(prices: seq<real>, price: real): int {
    if prices == [] then 0
    else if price != prices[|prices| - 1] then Sign(price - prices[|prices| - 1])
    else LastChange(prices)
  }

  function Moved(prices: seq<real>, t: Trade, sign: int): nat {
    if t.price.Some? && prices != [] && Sign(t.price.value - prices[|prices| - 1]) == sign then 1 else 0
  }

  /** The last price is above (`sign` 1) or below (-1) the last one that differs from it. */
  ghost predicate MovedFrom(prices: seq<real>, k: int, sign: int) {
    && 0 <= k < |prices| - 1
    && (forall m :: k < m < |prices| ==> prices[m] == prices[|prices| - 1])
    && (if sign == 1 then prices[k] < prices[|prices| - 1] else prices[k] > prices[|prices| - 1])
  }

  /** What a direction means: the print is above, or below, the last earlier price
      that differs from it; no direction means that none does. */
  lemma {:induction false} LastChangeMeans(prices: seq<real>)
    ensures LastChange(prices) == 1 <==> exists k :: MovedFrom(prices, k, 1)
    ensures LastChange(prices) == -1 <==> exists k :: MovedFrom(prices, k, -1)
    ensures LastChange(prices) == 0 <==> forall i, j :: 0 <= i < j < |prices| ==> prices[i] == prices[j]
  {
    var n := |prices| - 1;
    if n >= 1 {
      var front := prices[..n];
      LastChangeMeans(front);
      if prices[n] != prices[n - 1] {
        var sign := if prices[n] > prices[n - 1] then 1 else -1;
        assert MovedFrom(prices, n - 1, sign);
        forall k | 0 <= k < n - 1 ensures !MovedFrom(prices, k, 1) && !MovedFrom(prices, k, -1) {}
      } else {
        forall k, sign | sign == 1 || sign == -1 ensures MovedFrom(prices, k, sign) <==> MovedFrom(front, k, sign) {
          SameMove(prices, k, sign);
        }
        if LastChange(prices) == 0 {
          forall i, j | 0 <= i < j < |prices| ensures prices[i] == prices[j] {
            assert i < n - 1 ==> front[i] == front[n - 1];
            assert j < n - 1 ==> front[j] == front[n - 1];
          }
        } else {
          LastChangeIsSign(prices);
        }
      }
    }
  }

  lemma SameMove(prices: seq<real>, k: int, sign: int)
    requires |prices| >= 2 && prices[|prices| - 1] == prices[|prices| - 2] && (sign == 1 || sign == -1)
    ensures MovedFrom(prices, k, sign) <==> MovedFrom(prices[..|prices| - 1], k, sign)
  {
    var front := prices[..|prices| - 1];
    if MovedFrom(front, k, sign) {
      forall m | k < m < |prices| ensures prices[m] == prices[|prices| - 1] {
        assert m < |front| ==> front[m] == front[|front| - 1];
      }
    }
  }

  lemma {:induction false} LastChangeIsSign(prices: seq<real>)
    ensures LastChange(prices) in {-1, 0, 1}
  {
    var n := |prices| - 1;
    if n >= 1 { LastChangeIsSign(prices[..n]); }
  }

  /** Every print is bought, sold or unclassified, and the three volumes sum to
      the total size. */
  lemma {:induction false} FlowPartitions(trades: seq<Trade>)
    ensures Tally(trades, 1) + Tally(trades, -1) + Tally(trades, 0) == |trades|
    ensures TallyVolume(trades, 1) + TallyVolume(trades, -1) + TallyVolume(trades, 0) == TotalSize(trades)
  {
    if trades != [] {
      var n := |trades| - 1;
      FlowPartitions(trades[..n]);
      LastChangeIsSign(Prices(trades[..n + 1]));
    }
  }

  // ---------------------------------------------------------------- mirror image

  ghost predicate Decreasing(g: real -> real) { forall x, y :: x < y ==> g(x) > g(y) }

  function MapPrices(trades: seq<Trade>, g: real -> real): seq<Trade> {
    seq(|trades|, i requires 0 <= i < |trades| =>
      if trades[i].price.Some? then trades[i].(price := Some(g(trades[i].price.value))) else trades[i])
  }

  function MapAll(prices: seq<real>, g: real -> real): seq<real> {
    seq(|prices|, i requires 0 <= i < |prices| => g(prices[i]))
  }

  lemma SignFlips(g: real -> real, x: real, y: real)
    requires Decreasing(g)
    ensures Sign(g(x) - g(y)) == -Sign(x - y)
  {
    if x < y { assert g(x) > g(y); } else if y < x { assert g(y) > g(x); }
  }

  lemma {:induction false} MapPricesPrices(trades: seq<Trade>, g: real -> real)
    ensures Prices(MapPrices(trades, g)) == MapAll(Prices(trades), g)
  {
    if trades != [] {
      var n := |trades| - 1;
      MapPricesPrices(trades[..n], g);
      assert MapPrices(trades, g)[..n] == MapPrices(trades[..n], g);
    }
  }

  lemma {:induction false} LastChangeFlips(prices: seq<real>, g: real -> real)
    requires Decreasing(g)
    ensures LastChange(MapAll(prices, g)) == -LastChange(prices)
  {
    var n := |prices| - 1;
    if n >= 1 {
      SignFlips(g, prices[n], prices[n - 1]);
      assert MapAll(prices, g)[..n] == MapAll(prices[..n], g);
      LastChangeFlips(prices[..n], g);
    }
  }

  lemma {:induction false} TicksFlip(prices: seq<real>, g: real -> real, sign: int)
    requires Decreasing(g)
    ensures Ticks(MapAll(prices, g), sign) == Ticks(prices, -sign)
  {
    var n := |prices| - 1;
    if n >= 1 {
      SignFlips(g, prices[n], prices[n - 1]);
      assert MapAll(prices, g)[..n] == MapAll(prices[..n], g);
      TicksFlip(prices[..n], g, sign);
    }
  }

  lemma {:induction false} TallyFlips(trades: seq<Trade>, g: real -> real, direction: int)
    requires Decreasing(g)
    ensures Tally(MapPrices(trades, g), direction) == Tally(trades, -direction)
    ensures TallyVolume(MapPrices(trades, g), direction) == TallyVolume(trades, -direction)
  {
    if trades != [] {
      var n := |trades| - 1;
      var m := MapPrices(trades, g);
      TallyFlips(trades[..n], g, direction);
      assert m[..n] == MapPrices(trades[..n], g);
      assert m[..n + 1] == m && trades[..n + 1] == trades;
      MapPricesPrices(trades, g);
      LastChangeFlips(Prices(trades), g);
    }
  }

  /** The rule only looks at the order of prices: reversing it exchanges buys with
      sells and upticks with downticks and leaves the rest alone. */
  lemma MirrorFlow(trades: seq<Trade>, g: real -> real)
    requires Decreasing(g)
    ensures var f, m := FlowOf(trades), FlowOf(MapPrices(trades, g));
            m == Flow(f.sell, f.buy, f.unk, f.sellV, f.buyV, f.unkV, f.downticks, f.upticks, f.zeroticks)
  {
    MapPricesPrices(trades, g);
    TallyFlips(trades, g, 1);
    TallyFlips(trades, g, -1);
    TallyFlips(trades, g, 0);
    TicksFlip(Prices(trades), g, 1);
    TicksFlip(Prices(trades), g, -1);
    TicksFlip(Prices(trades), g, 0);
  }
}
