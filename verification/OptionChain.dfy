/** What the option-chain analytics say about the rows of the chain
    (analysis/option_walls.py).
  */
module OptionChain {
  import opened Numbers
  import opened OptionWalls
  import opened Options
  import opened Sequences

  // ---------------------------------------------------------------- the table

  /** A row of the side at the strike that carries open interest. */
  predicate Carries(r: ChainRow, side: Side, strike: real) {
    r.side == side && r.strike == strike && r.openInterest.Some?
  }

  /** Every entry stands for rows of its side, and every row of the side that carries
      open interest is behind an entry. */
  lemma TableCoversSide(table: seq<Coverage>, rows: seq<ChainRow>, side: Side)
    requires IsTable(table, rows, side)
    ensures forall e :: e in table ==> exists r :: r in rows && Carries(r, side, e.strike)
    ensures forall r :: r in rows && r.side == side && r.openInterest.Some? ==>
              exists e :: e in table && e.strike == r.strike
  {
    forall r | r in rows && r.side == side && r.openInterest.Some?
      ensures exists e :: e in table && e.strike == r.strike
    {
      assert Quoted(rows, side, r.strike);
      assert EntryFor(rows, side, r.strike) in table;
    }
    forall e | e in table ensures exists r :: r in rows && Carries(r, side, e.strike) {
      var r :| r in rows && Counts(r, side) && r.strike == e.strike;
      assert Carries(r, side, e.strike);
    }
  }

  /** The order of a table: open interest falls, and where it is equal strikes rise. */
  lemma TableOrder(table: seq<Coverage>, rows: seq<ChainRow>, side: Side, i: nat, j: nat)
    requires IsTable(table, rows, side) && i < j < |table|
    ensures table[i].openInterest >= table[j].openInterest
    ensures table[i].openInterest == table[j].openInterest ==> table[i].strike < table[j].strike
  {
    assert Ahead(table[i], table[j]);
  }

  /** A cut table is a prefix: `top` entries, all but the last `-top` for a negative
      `top`, and all when none is given. */
  lemma CutLength<T>(s: seq<T>, top: Option<int>)
    ensures Cut(s, top) <= s
    ensures top.None? ==> |Cut(s, top)| == |s|
    ensures top.Some? && top.value >= 0 ==> |Cut(s, top)| == if top.value <= |s| then top.value else |s|
    ensures top.Some? && top.value < 0 ==> |Cut(s, top)| == if |s| + top.value >= 0 then |s| + top.value else 0
  {
  }

  // ---------------------------------------------------------------- the median

  lemma FrontOf(x: seq<real>)
    requires Ordered(x, AtMost) && x != []
    ensures Ordered(x[..|x| - 1], AtMost) && multiset(x[..|x| - 1]) == multiset(x) - multiset{x[|x| - 1]}
    ensures x[|x| - 1] in multiset(x)
  {
    assert x == x[..|x| - 1] + [x[|x| - 1]];
  }

  lemma FrontsAgree(x: seq<real>, y: seq<real>)
    requires Ordered(x, AtMost) && Ordered(y, AtMost) && multiset(x) == multiset(y) && x != []
    ensures |x| == |y| && x[|x| - 1] == y[|x| - 1]
    ensures Ordered(x[..|x| - 1], AtMost) && Ordered(y[..|x| - 1], AtMost)
    ensures multiset(x[..|x| - 1]) == multiset(y[..|x| - 1])
  {
    SameLength(x, y);
    hide Ordered;
    FrontOf(x);
    FrontOf(y);
    SameGreatest(x, y);
  }

  lemma SameLength(x: seq<real>, y: seq<real>)
    requires multiset(x) == multiset(y)
    ensures |x| == |y|
  {
    assert |multiset(x)| == |x| && |multiset(y)| == |y|;
  }

  lemma JoinBack(x: seq<real>, y: seq<real>)
    requires |x| == |y| > 0 && x[..|x| - 1] == y[..|x| - 1] && x[|x| - 1] == y[|x| - 1]
    ensures x == y
  {
    assert x == x[..|x| - 1] + [x[|x| - 1]] && y == y[..|x| - 1] + [y[|x| - 1]];
  }

  lemma {:induction false} SortedSame(x: seq<real>, y: seq<real>)
    requires Ordered(x, AtMost) && Ordered(y, AtMost) && multiset(x) == multiset(y)
    ensures x == y
  {
    hide Ordered;
    if x == [] {
      SameLength(x, y);
    } else {
      FrontsAgree(x, y);
      SortedSame(x[..|x| - 1], y[..|x| - 1]);
      JoinBack(x, y);
    }
  }

  lemma SameGreatest(x: seq<real>, y: seq<real>)
    requires Ordered(x, AtMost) && Ordered(y, AtMost) && x != [] && y != []
    requires x[|x| - 1] in y && y[|y| - 1] in x
    ensures x[|x| - 1] == y[|y| - 1]
  {
    var n, m := |x| - 1, |y| - 1;
    var i :| 0 <= i <= n && x[i] == y[m];
    var j :| 0 <= j <= m && y[j] == x[n];
    assert i < n ==> AtMost(x[i], x[n]);
    assert j < m ==> AtMost(y[j], y[m]);
  }

  /** The values negated, in the opposite order. */
  function Flip(s: seq<real>): seq<real> {
    seq(|s|, i requires 0 <= i < |s| => -s[|s| - 1 - i])
  }

  function Negate(s: seq<real>): seq<real> {
    seq(|s|, i requires 0 <= i < |s| => -s[i])
  }

  lemma {:induction false} NegateCounts(s: seq<real>, x: real)
    ensures multiset(Negate(s))[x] == multiset(s)[-x]
  {
    if s != [] {
      var n := |s| - 1;
      NegateCounts(s[..n], x);
      assert s == s[..n] + [s[n]];
      assert Negate(s) == Negate(s[..n]) + [-s[n]];
    }
  }

  lemma {:induction false} FlipCounts(s: seq<real>, x: real)
    ensures multiset(Flip(s))[x] == multiset(s)[-x]
  {
    if s != [] {
      var n := |s| - 1;
      FlipCounts(s[..n], x);
      assert s == s[..n] + [s[n]];
      assert Flip(s) == [-s[n]] + Flip(s[..n]);
    }
  }

  lemma FlipOrdered(s: seq<real>)
    requires Ordered(s, AtMost)
    ensures Ordered(Flip(s), AtMost)
  {
    forall i, j | 0 <= i < j < |s| ensures AtMost(Flip(s)[i], Flip(s)[j]) {
      assert AtMost(s[|s| - 1 - j], s[|s| - 1 - i]);
    }
  }

  lemma SortNegate(s: seq<real>)
    ensures |Sort(s, AtMost)| == |s| && Sort(Negate(s), AtMost) == Flip(Sort(s, AtMost))
  {
    var sorted, other := Sort(s, AtMost), Sort(Negate(s), AtMost);
    AtMostOrders();
    SortPermutes(s, AtMost);
    SortOrders(s, AtMost);
    SortPermutes(Negate(s), AtMost);
    SortOrders(Negate(s), AtMost);
    hide Sort, Flip, Negate, TotalPreorder;
    FlipOrdered(sorted);
    forall x ensures multiset(Flip(sorted))[x] == multiset(other)[x] {
      FlipCounts(sorted, x);
      NegateCounts(s, x);
    }
    assert multiset(Flip(sorted)) == multiset(other);
    SortedSame(Flip(sorted), other);
  }

  /** The median does not lean to either side: negating the values negates it, for an
      even number of them too. */
  lemma MedianMirror(s: seq<real>)
    requires s != []
    ensures Median(Negate(s)) == -Median(s)
  {
    SortNegate(s);
    hide Sort;
  }

  // ---------------------------------------------------------------- parity

  /** A pair that is used, with its estimate: both sides quoted with bid and ask, the
      strike deep enough below the reference. */
  ghost predicate Implies(p: Pair, reference: real, fraction: real, x: real) {
    match (p.call, p.put)
    case (Some(call), Some(put)) =>
      && call.bid.Some? && call.ask.Some? && put.bid.Some? && put.ask.Some?
      && p.strike <= reference * fraction
      && 2.0 * x == call.bid.value + call.ask.value - put.bid.value - put.ask.value + 2.0 * p.strike
    case _ => false
  }

  /** The estimates are exactly those of the usable pairs. */
  lemma {:induction false} EstimatesExact(pairs: seq<Pair>, reference: real, fraction: real, x: real)
    ensures x in Estimates(pairs, reference, fraction) <==> exists p :: p in pairs && Implies(p, reference, fraction, x)
  {
    if pairs != [] {
      var n := |pairs| - 1;
      assert pairs == pairs[..n] + [pairs[n]];
      EstimatesExact(pairs[..n], reference, fraction, x);
      OneEstimate(pairs[n], reference, fraction, x);
      hide DeepItm, Estimate, Implies;
    }
  }

  lemma OneEstimate(p: Pair, reference: real, fraction: real, x: real)
    ensures DeepItm(p, reference, fraction) && Estimate(p) == x <==> Implies(p, reference, fraction, x)
  {
  }

  // ---------------------------------------------------------------- the risk reversal

  /** A row that can be a leg: not expiring today, with volatility and delta. */
  predicate Quotable(r: ChainRow) { r.dte >= 1 && r.iv.Some? && r.delta.Some? }

  /** How far the size of the row's delta is from the target. */
  function Gap(r: ChainRow, target: real): real
    requires r.delta.Some?
  {
    Abs(Abs(r.delta.value) - target)
  }

  predicate PutLeg(r: ChainRow, dte: int, spot: real) {
    Quotable(r) && r.dte == dte && r.side == Put && r.strike <= spot
  }

  predicate CallLeg(r: ChainRow, dte: int, spot: real) {
    Quotable(r) && r.dte == dte && r.side == Call && r.strike >= spot
  }

  ghost predicate Nearest(rows: seq<ChainRow>, dte: int) { forall r :: r in rows && Quotable(r) ==> dte <= r.dte }

  /** The legs in terms of the chain: a put struck at or below spot and a call struck at
      or above it, both at the nearest expiration with usable rows, and no such row
      comes closer to the target delta. */
  lemma LegsMean(rows: seq<ChainRow>, check: SpotCheck, target: real)
    requires Reversal(rows, check, target).Some?
    ensures var rr, spot := Reversal(rows, check, target).value, check.printed.value;
      && rr.put in rows && PutLeg(rr.put, rr.dte, spot) && rr.call in rows && CallLeg(rr.call, rr.dte, spot)
      && Nearest(rows, rr.dte)
      && (forall r :: r in rows && PutLeg(r, rr.dte, spot) ==> Gap(rr.put, target) <= Gap(r, target))
      && (forall r :: r in rows && CallLeg(r, rr.dte, spot) ==> Gap(rr.call, target) <= Gap(r, target))
  {
    ReversalLegs(rows, check, target);
    var rr, spot := Reversal(rows, check, target).value, check.printed.value;
    hide Reversal, Abs;
    forall r | r in rows && Quotable(r) ensures rr.dte <= r.dte { assert Usable(r); }
    forall r | r in rows && PutLeg(r, rr.dte, spot) ensures Gap(rr.put, target) <= Gap(r, target) {
      assert OtmPut(rr.dte, spot)(r);
    }
    forall r | r in rows && CallLeg(r, rr.dte, spot) ensures Gap(rr.call, target) <= Gap(r, target) {
      assert OtmCall(rr.dte, spot)(r);
    }
  }

  ghost predicate HasLegs(rows: seq<ChainRow>, spot: real) {
    exists put, call :: put in rows && call in rows && put.dte == call.dte && Nearest(rows, put.dte)
                        && PutLeg(put, put.dte, spot) && CallLeg(call, put.dte, spot)
  }

  /** A risk reversal is produced exactly when the check holds and the nearest usable
      expiration has a put and a call out of the money. */
  lemma ReversalProduced(rows: seq<ChainRow>, check: SpotCheck, target: real)
    ensures Reversal(rows, check, target).Some? <==>
            && check.printed.Some? && check.printed.value != 0.0
            && check.Trustworthy() && HasLegs(rows, check.printed.value)
  {
    if Reversal(rows, check, target).Some? {
      LegsMean(rows, check, target);
    } else if check.printed.Some? && check.printed.value != 0.0 && check.Trustworthy() {
      NoLegs(rows, check, target);
    }
  }

  lemma NoLegs(rows: seq<ChainRow>, check: SpotCheck, target: real)
    requires check.printed.Some? && check.printed.value != 0.0 && check.Trustworthy()
    requires Reversal(rows, check, target).None?
    ensures !HasLegs(rows, check.printed.value)
  {
    var spot := check.printed.value;
    forall put, call | put in rows && call in rows && put.dte == call.dte && PutLeg(put, put.dte, spot)
                       && CallLeg(call, put.dte, spot)
      ensures !Nearest(rows, put.dte)
    {
      Filtered(rows, Usable);
      assert put in Filter(rows, Usable);
      MinByLeast(Filter(rows, Usable), DteKey);
      var nearest := MinBy(Filter(rows, Usable), DteKey);
      Filtered(rows, OtmPut(nearest.dte, spot));
      Filtered(rows, OtmCall(nearest.dte, spot));
      assert OtmPut(put.dte, spot)(put) && OtmCall(put.dte, spot)(call);
      hide MinBy, Filter, DeltaGap;
      assert DteKey(nearest) <= DteKey(put);
      assert nearest.dte != put.dte;
      assert Quotable(nearest) && nearest in rows;
    }
  }
}
