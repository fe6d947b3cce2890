/** Alerts of a price level in terms of bids and asks (scripts/alert.py). */
module LevelBook {
  import opened LevelBreak
  import opened Options

  predicate BidAbove(price: real, s: Snapshot) { s.bid.Some? && s.bid.value > price }

  predicate AskBelow(price: real, s: Snapshot) { s.ask.Some? && s.ask.value < price }

  /** The whole book has gone to the side: the bid is above the price, or the ask
      below it and the bid not above. */
  predicate BookOn(price: real, s: Snapshot, side: Side) {
    if side == Above then BidAbove(price, s) else AskBelow(price, s) && !BidAbove(price, s)
  }

  lemma CandIsBook(price: real, h: seq<Tick>, i: nat, side: Side)
    requires i < |h|
    ensures Cand(price, h, i) == Some(side) <==> BookOn(price, h[i].snapshot, side)
    ensures Cand(price, h, i).None? <==> !BidAbove(price, h[i].snapshot) && !AskBelow(price, h[i].snapshot)
  {
  }

  /** The snapshots of a stretch whose book is on the side. */
  ghost function OnSide(price: real, h: seq<Tick>, from: nat, to: nat, side: Side): set<int>
    requires from <= to <= |h|
  {
    set k | from <= k < to && BookOn(price, h[k].snapshot, side)
  }

  lemma {:induction false} SupportIsOnSide(price: real, h: seq<Tick>, from: nat, to: nat, side: Side)
    requires from <= to <= |h|
    ensures Support(price, h, from, to, side) == |OnSide(price, h, from, to, side)|
  {
    if from == to {
      assert OnSide(price, h, from, to, side) == {};
    } else {
      SupportIsOnSide(price, h, from, to - 1, side);
      CandIsBook(price, h, to - 1, side);
      assert OnSide(price, h, from, to, side) ==
             OnSide(price, h, from, to - 1, side) + (if BookOn(price, h[to - 1].snapshot, side) then {to - 1} else {});
    }
  }

  /** What the book did before an alert at `last`: it was on the new side when the
      break began and when it fired, at least twice and at least `confirm` times
      in between, and never on the other side. */
  ghost predicate BookBacks(price: real, p: Settings, h: seq<Tick>, first: int, last: nat, side: Side)
    requires last < |h|
  {
    && 0 <= first < last
    && BookOn(price, h[first].snapshot, side) && BookOn(price, h[last].snapshot, side)
    && |OnSide(price, h, first, last + 1, side)| >= 2
    && |OnSide(price, h, first, last + 1, side)| >= p.confirm
    && (forall k :: first <= k <= last && BookOn(price, h[k].snapshot, Above) ==> side == Above)
    && (forall k :: first <= k <= last && BookOn(price, h[k].snapshot, Below) ==> side == Below)
  }

  lemma {:induction false} SupportOfPart(price: real, h: seq<Tick>, n: nat, from: nat, to: nat, side: Side)
    requires from <= to <= n <= |h|
    ensures Support(price, h[..n], from, to, side) == Support(price, h, from, to, side)
  {
    if from < to {
      SupportOfPart(price, h, n, from, to - 1, side);
      assert Cand(price, h[..n], to - 1) == Cand(price, h, to - 1);
    }
  }

  /** An alert above is raised only when bids stood above the price, an alert below
      only when asks stood below it, with nothing on the other side meanwhile. */
  lemma FiresOnTheBook(price: real, p: Settings, h: seq<Tick>, n: nat)
    requires n < |h| && Run(price, p, h).1[n].Some?
    ensures exists first :: BookBacks(price, p, h, first, n, Run(price, p, h).1[n].value)
  {
    FiresAreBacked(price, p, h, n);
    var side := Run(price, p, h).1[n].value;
    var first :| BackedBefore(price, p, h, first, n, side);
    hide Run, PaceBetween, Undecided;
    var g := h[..n + 1];
    forall k | first <= k <= n ensures Cand(price, g, k).None? || Cand(price, g, k) == Some(side) {
      assert OneSided(price, p, g, first, n + 1, side);
    }
    forall k | first <= k <= n ensures g[k] == h[k] && Cand(price, g, k) == Cand(price, h, k) {}
    SupportOfPart(price, h, n + 1, first, n + 1, side);
    SupportIsOnSide(price, h, first, n + 1, side);
    hide OneSided, Support, Cand, BookOn;
    forall k, s | first <= k <= n ensures Cand(price, h, k) == Some(s) <==> BookOn(price, h[k].snapshot, s) {
      CandIsBook(price, h, k, s);
    }
    assert BookBacks(price, p, h, first, n, side);
  }

  lemma PerMinute(traded: int, elapsed: real, pace: real)
    requires elapsed > 0.0
    ensures Pace(traded, elapsed) >= pace <==> traded as real * 60.0 >= pace * elapsed
  {
    var q := Pace(traded, elapsed);
    assert q * (elapsed / 60.0) == traded as real;
    assert q * elapsed == traded as real * 60.0;
    assert (q - pace) * elapsed == traded as real * 60.0 - pace * elapsed;
    if q < pace { assert (pace - q) * elapsed > 0.0; } else { assert (q - pace) * elapsed >= 0.0; }
  }

  ghost predicate Printed(s: Snapshot) { s.volume.Some? && s.volume.value > 0 && s.epoch > 0.0 }

  /** At least `pace` shares a minute between the snapshots, taken to be at least a
      microsecond apart. */
  ghost predicate TradedFast(a: Snapshot, b: Snapshot, pace: real)
    requires Printed(a) && Printed(b)
  {
    var elapsed := if b.epoch - a.epoch >= 0.000001 then b.epoch - a.epoch else 0.000001;
    (b.volume.value - a.volume.value) as real * 60.0 >= pace * elapsed
  }

  /** With positive volumes and epochs an alert has traded at least `min_pace` shares
      a minute since the break began. */
  lemma AlertPace(price: real, p: Settings, h: seq<Tick>, n: nat)
    requires n < |h| && Run(price, p, h).1[n].Some?
    requires forall k :: 0 <= k <= n ==> Printed(h[k].snapshot)
    ensures exists first :: 0 <= first < n && BookOn(price, h[first].snapshot, Run(price, p, h).1[n].value)
                            && TradedFast(h[first].snapshot, h[n].snapshot, p.minPace)
  {
    FiresAreBacked(price, p, h, n);
    var side := Run(price, p, h).1[n].value;
    var first :| BackedBefore(price, p, h, first, n, side);
    hide Run, Undecided, Support;
    var g := h[..n + 1];
    PlainPace(price, p, g, first, n, side);
    var a, b := h[first].snapshot, h[n].snapshot;
    PerMinute(b.volume.value - a.volume.value, Elapsed(b.epoch, a.epoch), p.minPace);
    CandIsBook(price, g, first, side);
    assert g[first] == h[first];
  }

  /** The middle of the book, or the last price where a side of it is missing. */
  function Middle(s: Snapshot): Option<real> {
    match (s.bid, s.ask)
    case (Some(bid), Some(ask)) => Some((bid + ask) / 2.0)
    case _ => s.last
  }

  /** A level takes its first side from the first snapshot that has a middle: above
      exactly when that is at least the price. It raises nothing then. */
  lemma FirstSide(price: real, p: Settings, h: seq<Tick>, n: nat)
    requires n < |h| && forall k :: 0 <= k < n ==> Middle(h[k].snapshot).None?
    ensures Run(price, p, h).1[n].None?
    ensures var lv, mid := Run(price, p, h[..n + 1]).0, Middle(h[n].snapshot);
      lv == NewLevel(price).(side := if mid.None? then None else Some(if mid.value >= price then Above else Below))
  {
    EventAt(price, p, h, n);
    StillNew(price, p, h, n);
    hide Run;
  }

  lemma {:induction false} StillNew(price: real, p: Settings, h: seq<Tick>, n: nat)
    requires n <= |h| && forall k :: 0 <= k < n ==> Middle(h[k].snapshot).None?
    ensures Run(price, p, h[..n]).0 == NewLevel(price)
  {
    if n > 0 {
      StillNew(price, p, h, n - 1);
      RunSnoc(price, p, h, n - 1);
      hide Run;
    }
  }

  /** While the book stays on the side a level is on, nothing is pending and nothing
      is raised. */
  lemma NoBreakNoAlert(price: real, p: Settings, h: seq<Tick>, n: nat)
    requires n < |h| && Run(price, p, h[..n]).0.side.Some?
    requires BookOn(price, h[n].snapshot, Run(price, p, h[..n]).0.side.value)
    ensures Run(price, p, h).1[n].None? && Run(price, p, h[..n + 1]).0.pending.None?
    ensures Run(price, p, h[..n + 1]).0.side == Run(price, p, h[..n]).0.side
  {
    EventAt(price, p, h, n);
    RunInv(price, p, h[..n]);
    hide Run, PendingInv;
  }
}
