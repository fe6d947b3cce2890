/** The confirmation state machine of one price level (scripts/alert.py).

    A history is the sequence of distinct snapshots a level was stepped with,
    each with the caller's clock reading.
  */
module LevelBreak {
  import opened Options

  datatype Side = Above | Below

  datatype Snapshot = Snapshot(
    epoch: real, last: Option<real>, bid: Option<real>, ask: Option<real>, volume: Option<int>)

  datatype Settings = Settings(confirm: int, minPace: real, straddleGrace: int, cooldown: real)

  datatype State = State(
    price: real,
    side: Option<Side>,
    pending: Option<Side>,
    snaps: nat,
    straddles: nat,
    volAtCross: Option<int>,
    tAtCross: Option<real>,
    lastFire: real)

  function Mid(s: Snapshot): Option<real> {
    if s.bid.Some? && s.ask.Some? then Some((s.bid.value + s.ask.value) / 2.0) else s.last
  }

  /** Which side of the price the whole book sits on, if either. */
  function Classify(price: real, s: Snapshot): Option<Side> {
    if s.bid.Some? && s.bid.value > price then Some(Above)
    else if s.ask.Some? && s.ask.value < price then Some(Below)
    else None
  }

  function Reset(lv: State): State {
    lv.(pending := None, snaps := 0, straddles := 0, volAtCross := None, tAtCross := None)
  }

  /** Python's `x or y` on numbers: zero counts as missing. */
  function OrInt(x: Option<int>, y: int): int { if x.Some? && x.value != 0 then x.value else y }

  function OrReal(x: Option<real>, y: real): real { if x.Some? && x.value != 0.0 then x.value else y }

  function Elapsed(epoch: real, since: real): real {
    if epoch - since >= 0.000001 then epoch - since else 0.000001
  }

  /** Shares per minute. */
  function Pace(traded: int, elapsed: real): real
    requires elapsed > 0.0
  {
    traded as real / (elapsed / 60.0)
  }

  function CrossPace(lv: State, s: Snapshot): real {
    var volume := OrInt(s.volume, 0);
    Pace(volume - OrInt(lv.volAtCross, volume), Elapsed(s.epoch, OrReal(lv.tAtCross, s.epoch)))
  }

  /** `step_level`: the level afterwards and the event, if it fires. */
  function StepLevel(lv: State, s: Snapshot, p: Settings, now: real): (State, Option<Side>) {
    if lv.side.None? then
      var mid := Mid(s);
      if mid.None? then (lv, None)
      else (lv.(side := Some(if mid.value >= lv.price then Above else Below)), None)
    else
      var cand := Classify(lv.price, s);
      if cand.None? then
        if lv.pending.None? then (lv, None)
        else
          var lv1 := lv.(straddles := lv.straddles + 1);
          (if lv1.straddles > p.straddleGrace then Reset(lv1) else lv1, None)
      else
        var lv1 := lv.(straddles := 0);
        if cand == lv.side then (Reset(lv1), None)
        else if lv.pending != cand then
          (lv1.(pending := cand, snaps := 1, volAtCross := s.volume, tAtCross := Some(s.epoch)), None)
        else
          var lv2 := lv1.(snaps := lv.snaps + 1);
          if lv2.snaps < p.confirm || CrossPace(lv2, s) < p.minPace || now - lv.lastFire < p.cooldown then (lv2, None)
          else (Reset(lv2.(side := cand, lastFire := now)), cand)
  }

  /** What the progress line says: the first side, a break that lacks pace, or
      the detail of an alert. */
  datatype Progress =
    | Baseline(side: Side, mid: real)
    | NearMiss(to: Side, snaps: nat, traded: int, pace: real)
    | Fired(traded: int, elapsed: real, pace: real)

  function Traded(lv: State, s: Snapshot): int {
    var volume := OrInt(s.volume, 0);
    volume - OrInt(lv.volAtCross, volume)
  }

  /** The progress `step_level` returns beside the event. */
  function ProgressOf(lv: State, s: Snapshot, p: Settings, now: real): Option<Progress> {
    if lv.side.None? then
      var mid := Mid(s);
      if mid.None? then None else Some(Baseline(if mid.value >= lv.price then Above else Below, mid.value))
    else
      var cand := Classify(lv.price, s);
      if cand.None? || cand == lv.side || lv.pending != cand || lv.snaps + 1 < p.confirm then None
      else if CrossPace(lv, s) < p.minPace then
        Some(NearMiss(cand.value, lv.snaps + 1, Traded(lv, s), CrossPace(lv, s)))
      else if now - lv.lastFire < p.cooldown then None
      else Some(Fired(Traded(lv, s), Elapsed(s.epoch, OrReal(lv.tAtCross, s.epoch)), CrossPace(lv, s)))
  }

  /** A line says an alert fired exactly when one did, and a near miss only while
      a confirmed break lacks pace. */
  lemma ProgressTells(lv: State, s: Snapshot, p: Settings, now: real)
    ensures var (lv', event), progress := StepLevel(lv, s, p, now), ProgressOf(lv, s, p, now);
      && (event.Some? <==> progress.Some? && progress.value.Fired?)
      && (progress.Some? && progress.value.NearMiss? ==>
            lv'.pending == Some(progress.value.to) && lv'.snaps == progress.value.snaps >= p.confirm
            && progress.value.pace < p.minPace)
      && (progress.Some? && progress.value.Baseline? <==> lv.side.None? && lv'.side.Some?)
      && (event.Some? ==> progress.value.pace >= p.minPace)
  {
  }

  function NewLevel(price: real): State { State(price, None, None, 0, 0, None, None, 0.0) }

  datatype Tick = Tick(snapshot: Snapshot, now: real)

  /** The level and the events (one entry for each snapshot) after a history. */
  function Run(price: real, p: Settings, h: seq<Tick>): (r: (State, seq<Option<Side>>))
    ensures |r.1| == |h|
  {
    if h == [] then (NewLevel(price), [])
    else
      var n := |h| - 1;
      var (lv, events) := Run(price, p, h[..n]);
      var (lv', event) := StepLevel(lv, h[n].snapshot, p, h[n].now);
      (lv', events + [event])
  }

  // ---------------------------------------------------------------- what backs a fire

  function Cand(price: real, h: seq<Tick>, i: nat): Option<Side>
    requires i < |h|
  {
    Classify(price, h[i].snapshot)
  }

  /** Snapshots in [from, to) on the given side. */
  function Support(price: real, h: seq<Tick>, from: nat, to: nat, side: Side): nat
    requires from <= to <= |h|
  {
    if from == to then 0
    else Support(price, h, from, to - 1, side) + (if Cand(price, h, to - 1) == Some(side) then 1 else 0)
  }

  /** How many undecided snapshots in a row [from, to) ends with. */
  function Undecided(price: real, h: seq<Tick>, from: nat, to: nat): nat
    requires from <= to <= |h|
  {
    if from == to || Cand(price, h, to - 1).Some? then 0 else 1 + Undecided(price, h, from, to - 1)
  }

  function Grace(p: Settings): int { if p.straddleGrace < 0 then 0 else p.straddleGrace }

  /** Snapshots `first` to `last` are a confirmed stay on `side`: it opens and
      closes it, the other side never appears, and never more than the grace
      number of consecutive snapshots are undecided. */
  ghost predicate Stay(price: real, p: Settings, h: seq<Tick>, first: nat, last: nat, side: Side)
    requires first <= last < |h|
  {
    && Cand(price, h, first) == Some(side) == Cand(price, h, last)
    && OneSided(price, p, h, first, last + 1, side)
  }

  ghost predicate OneSided(price: real, p: Settings, h: seq<Tick>, from: nat, to: nat, side: Side)
    requires from <= to <= |h|
  {
    && (forall k :: from <= k < to ==> Cand(price, h, k).None? || Cand(price, h, k) == Some(side))
    && (forall k :: from <= k <= to ==> Undecided(price, h, from, k) <= Grace(p))
  }

  /** The pace the code computes from the snapshot that opened a stay to a later one. */
  function PaceBetween(a: Snapshot, b: Snapshot): real {
    var volume := OrInt(b.volume, 0);
    Pace(volume - OrInt(a.volume, volume), Elapsed(b.epoch, OrReal(Some(a.epoch), b.epoch)))
  }

  /** The snapshots that back a fire at `last`. */
  ghost predicate Backed(price: real, p: Settings, h: seq<Tick>, first: int, last: nat, side: Side)
    requires 0 <= first <= last < |h|
  {
    var a, b := h[first].snapshot, h[last].snapshot;
    && Stay(price, p, h, first, last, side)
    && Support(price, h, first, last + 1, side) >= 2
    && Support(price, h, first, last + 1, side) >= p.confirm
    && PaceBetween(a, b) >= p.minPace
  }

  /** The same, for the part of a longer history that ends at `last`. */
  ghost predicate BackedBefore(price: real, p: Settings, h: seq<Tick>, first: int, last: nat, side: Side)
    requires last < |h|
  {
    0 <= first < last && Backed(price, p, h[..last + 1], first, last, side)
  }

  /** What a pending level remembers of the history. */
  ghost predicate PendingInv(lv: State, p: Settings, h: seq<Tick>, first: nat)
    requires lv.pending.Some?
  {
    && first < |h|
    && Cand(lv.price, h, first) == lv.pending
    && lv.side.Some? && lv.side != lv.pending
    && OneSided(lv.price, p, h, first, |h|, lv.pending.value)
    && lv.snaps == Support(lv.price, h, first, |h|, lv.pending.value)
    && lv.straddles == Undecided(lv.price, h, first, |h|)
    && lv.volAtCross == h[first].snapshot.volume
    && lv.tAtCross == Some(h[first].snapshot.epoch)
    && lv.snaps >= 1
  }

  ghost predicate Inv(lv: State, price: real, p: Settings, h: seq<Tick>) {
    && lv.price == price
    && (lv.pending.Some? ==> lv.side.Some?)
    && (lv.pending.Some? ==> exists first :: PendingInv(lv, p, h, first))
  }

  lemma {:induction false} SupportPrefix(price: real, h: seq<Tick>, t: Tick, from: nat, to: nat, side: Side)
    requires from <= to <= |h|
    ensures Support(price, h + [t], from, to, side) == Support(price, h, from, to, side)
    ensures Undecided(price, h + [t], from, to) == Undecided(price, h, from, to)
  {
    if from < to { SupportPrefix(price, h, t, from, to - 1, side); }
  }

  lemma CandPrefix(price: real, h: seq<Tick>, t: Tick, i: nat)
    requires i < |h|
    ensures Cand(price, h + [t], i) == Cand(price, h, i)
  {
  }

  /** One more snapshot that is undecided, or on the same side. */
  lemma OneSidedGrows(price: real, p: Settings, h: seq<Tick>, t: Tick, from: nat, side: Side)
    requires from < |h| && OneSided(price, p, h, from, |h|, side)
    requires var c := Classify(price, t.snapshot);
             c == Some(side) || (c.None? && Undecided(price, h, from, |h|) + 1 <= Grace(p))
    ensures OneSided(price, p, h + [t], from, |h| + 1, side)
  {
    var g := h + [t];
    forall k | from <= k < |g| ensures Cand(price, g, k).None? || Cand(price, g, k) == Some(side) {
      if k < |h| { CandPrefix(price, h, t, k); }
    }
    forall k | from <= k <= |g| ensures Undecided(price, g, from, k) <= Grace(p) {
      if k <= |h| { SupportPrefix(price, h, t, from, k, side); } else { SupportPrefix(price, h, t, from, |h|, side); }
    }
  }

  lemma PendingGrows(lv: State, p: Settings, h: seq<Tick>, t: Tick, first: nat)
    requires lv.pending.Some? && PendingInv(lv, p, h, first)
    requires var c := Classify(lv.price, t.snapshot);
             c == lv.pending || (c.None? && lv.straddles + 1 <= Grace(p))
    ensures var c := Classify(lv.price, t.snapshot);
            PendingInv(if c.Some? then lv.(snaps := lv.snaps + 1, straddles := 0)
                       else lv.(straddles := lv.straddles + 1),
                       p, h + [t], first)
  {
    OneSidedGrows(lv.price, p, h, t, first, lv.pending.value);
    SupportPrefix(lv.price, h, t, first, |h|, lv.pending.value);
    CandPrefix(lv.price, h, t, first);
  }

  lemma PendingStarts(lv: State, p: Settings, h: seq<Tick>, t: Tick)
    requires Classify(lv.price, t.snapshot).Some? && lv.side.Some? && Classify(lv.price, t.snapshot) != lv.side
    ensures PendingInv(lv.(pending := Classify(lv.price, t.snapshot), snaps := 1, straddles := 0,
                           volAtCross := t.snapshot.volume, tAtCross := Some(t.snapshot.epoch)),
                       p, h + [t], |h|)
  {
    var g, n, c := h + [t], |h|, Classify(lv.price, t.snapshot);
    assert Cand(lv.price, g, n) == c;
    assert Undecided(lv.price, g, n, n) == 0 && Undecided(lv.price, g, n, n + 1) == 0;
    assert Support(lv.price, g, n, n, c.value) == 0;
  }

  /** One step keeps the invariant, and an event it raises is backed. */
  lemma StepInv(lv: State, price: real, p: Settings, h: seq<Tick>, t: Tick)
    requires Inv(lv, price, p, h)
    ensures var (lv', event) := StepLevel(lv, t.snapshot, p, t.now);
            && Inv(lv', price, p, h + [t])
            && (event.Some? ==> exists first :: 0 <= first < |h| && Backed(price, p, h + [t], first, |h|, event.value))
  {
    var c := Classify(price, t.snapshot);
    if lv.side.None? {
    } else if c.None? {
      if lv.pending.Some? && lv.straddles + 1 <= p.straddleGrace {
        var first :| PendingInv(lv, p, h, first);
        PendingGrows(lv, p, h, t, first);
      }
    } else if c != lv.side {
      if lv.pending != c {
        PendingStarts(lv, p, h, t);
      } else {
        var first :| PendingInv(lv, p, h, first);
        PendingGrows(lv, p, h, t, first);
        if StepLevel(lv, t.snapshot, p, t.now).1.Some? {
          PendingBacks(lv.(snaps := lv.snaps + 1, straddles := 0), p, h, t, first);
        }
      }
    }
  }

  lemma PendingBacks(lv: State, p: Settings, h: seq<Tick>, t: Tick, first: nat)
    requires lv.pending.Some? && PendingInv(lv, p, h + [t], first) && first < |h|
    requires Classify(lv.price, t.snapshot) == lv.pending
    requires lv.snaps >= 2 && lv.snaps >= p.confirm && CrossPace(lv, t.snapshot) >= p.minPace
    ensures Backed(lv.price, p, h + [t], first, |h|, lv.pending.value)
  {
  }

  // ---------------------------------------------------------------- every run

  lemma RunSnoc(price: real, p: Settings, h: seq<Tick>, n: nat)
    requires n < |h|
    ensures Run(price, p, h[..n + 1]).1[n] == StepLevel(Run(price, p, h[..n]).0, h[n].snapshot, p, h[n].now).1
    ensures Run(price, p, h[..n + 1]).0 == StepLevel(Run(price, p, h[..n]).0, h[n].snapshot, p, h[n].now).0
    ensures Run(price, p, h[..n + 1]).1[..n] == Run(price, p, h[..n]).1
  {
    hide StepLevel;
    assert h[..n + 1][..n] == h[..n];
  }

  lemma {:induction false} RunPrefix(price: real, p: Settings, h: seq<Tick>, n: nat)
    requires n <= |h|
    ensures Run(price, p, h).1[..n] == Run(price, p, h[..n]).1
    decreases |h|
  {
    var m := |h| - 1;
    if n == |h| {
      assert h[..n] == h;
    } else {
      RunPrefix(price, p, h[..m], n);
      assert h[..m][..n] == h[..n];
      RunSnoc(price, p, h, m);
      assert h[..m + 1] == h;
    }
  }

  /** The event at a position comes from the step taken there. */
  lemma EventAt(price: real, p: Settings, h: seq<Tick>, n: nat)
    requires n < |h|
    ensures Run(price, p, h).1[n] == StepLevel(Run(price, p, h[..n]).0, h[n].snapshot, p, h[n].now).1
    ensures Run(price, p, h[..n + 1]).0 == StepLevel(Run(price, p, h[..n]).0, h[n].snapshot, p, h[n].now).0
  {
    hide StepLevel, Run;
    RunPrefix(price, p, h, n + 1);
    RunSnoc(price, p, h, n);
  }

  lemma {:induction false} RunInv(price: real, p: Settings, h: seq<Tick>)
    ensures Inv(Run(price, p, h).0, price, p, h)
  {
    if h != [] {
      var n := |h| - 1;
      RunInv(price, p, h[..n]);
      StepInv(Run(price, p, h[..n]).0, price, p, h[..n], h[n]);
      assert h[..n] + [h[n]] == h;
    }
  }

  /** Every alert of every run is backed by the snapshots that end with it. */
  lemma FiresAreBacked(price: real, p: Settings, h: seq<Tick>, n: nat)
    requires n < |h| && Run(price, p, h).1[n].Some?
    ensures exists first :: BackedBefore(price, p, h, first, n, Run(price, p, h).1[n].value)
  {
    EventAt(price, p, h, n);
    RunInv(price, p, h[..n]);
    StepInv(Run(price, p, h[..n]).0, price, p, h[..n], h[n]);
    assert h[..n] + [h[n]] == h[..n + 1];
    var side := Run(price, p, h).1[n].value;
    var first :| 0 <= first < n && Backed(price, p, h[..n] + [h[n]], first, n, side);
    assert BackedBefore(price, p, h, first, n, side);
  }

  /** With positive volumes and times the pace is the plain one: what traded from
      the first backing snapshot to the firing one, per minute between them. */
  lemma PlainPace(price: real, p: Settings, h: seq<Tick>, first: nat, last: nat, side: Side)
    requires first <= last < |h| && Backed(price, p, h, first, last, side)
    requires var a, b := h[first].snapshot, h[last].snapshot;
             a.volume.Some? && b.volume.Some? && a.volume.value > 0 && b.volume.value > 0 && a.epoch > 0.0
    ensures var a, b := h[first].snapshot, h[last].snapshot;
            Pace(b.volume.value - a.volume.value, Elapsed(b.epoch, a.epoch)) >= p.minPace
  {
  }

  ghost predicate LastFired(events: seq<Option<Side>>, i: int) {
    0 <= i < |events| && events[i].Some? && forall k :: i < k < |events| ==> events[k].None?
  }

  ghost predicate FireInv(lv: State, events: seq<Option<Side>>, h: seq<Tick>)
    requires |events| == |h|
  {
    && (forall i :: LastFired(events, i) ==> lv.side == events[i] && lv.lastFire == h[i].now)
    && ((forall k :: 0 <= k < |events| ==> events[k].None?) ==> lv.lastFire == 0.0)
    && (lv.side.None? ==> forall k :: 0 <= k < |events| ==> events[k].None?)
  }

  lemma FireStep(lv: State, events: seq<Option<Side>>, p: Settings, h: seq<Tick>, t: Tick)
    requires |events| == |h| && FireInv(lv, events, h)
    ensures var (lv', event) := StepLevel(lv, t.snapshot, p, t.now);
            FireInv(lv', events + [event], h + [t])
  {
    var (lv', event) := StepLevel(lv, t.snapshot, p, t.now);
    var events' := events + [event];
    assert events'[|events|] == event;
    forall i | LastFired(events', i) ensures lv'.side == events'[i] && lv'.lastFire == (h + [t])[i].now {
      if i < |events| {
        assert forall k :: 0 <= k < |events| ==> events'[k] == events[k];
        assert LastFired(events, i);
        assert events[i].Some?;
      }
    }
    if forall k :: 0 <= k < |events'| ==> events'[k].None? {
      assert forall k :: 0 <= k < |events| ==> events[k] == events'[k];
    }
  }

  lemma {:induction false} RunFires(price: real, p: Settings, h: seq<Tick>)
    ensures FireInv(Run(price, p, h).0, Run(price, p, h).1, h)
  {
    hide FireInv, StepLevel;
    if h == [] {
      FireStart(price);
    } else {
      var n := |h| - 1;
      RunFires(price, p, h[..n]);
      FireStep(Run(price, p, h[..n]).0, Run(price, p, h[..n]).1, p, h[..n], h[n]);
      assert h[..n] + [h[n]] == h;
    }
  }

  lemma FireStart(price: real)
    ensures FireInv(NewLevel(price), [], [])
  {
  }

  /** Consecutive alerts of a level are on opposite sides and at least the
      cooldown apart. */
  lemma FiresAlternate(price: real, p: Settings, h: seq<Tick>, i: nat, j: nat)
    requires i < j < |h|
    requires Run(price, p, h).1[i].Some? && Run(price, p, h).1[j].Some?
    requires forall k :: i < k < j ==> Run(price, p, h).1[k].None?
    ensures Run(price, p, h).1[i] != Run(price, p, h).1[j]
    ensures h[j].now - h[i].now >= p.cooldown
  {
    EventAt(price, p, h, j);
    RunFires(price, p, h[..j]);
    RunPrefix(price, p, h, j);
    hide Run;
    assert forall k :: 0 <= k < j ==> Run(price, p, h[..j]).1[k] == Run(price, p, h).1[k];
    assert LastFired(Run(price, p, h[..j]).1, i);
  }

  // ---------------------------------------------------------------- no silent break

  /** A stay on `side` opens at `first` and is not broken up to `last`. */
  ghost predicate Holding(price: real, p: Settings, h: seq<Tick>, first: nat, last: nat, side: Side)
    requires first <= last < |h|
  {
    Cand(price, h, first) == Some(side) && OneSided(price, p, h, first, last + 1, side)
  }

  /** A level is on the other side, and not already pending. */
  predicate Awaits(lv: State, price: real, side: Side) {
    lv.price == price && lv.side.Some? && lv.side != Some(side) && lv.pending != Some(side)
  }

  /** What the level is during a stay that `lv` was waiting for. */
  function Waiting(lv: State, price: real, h: seq<Tick>, first: nat, to: nat, side: Side): State
    requires first < to <= |h|
  {
    lv.(pending := Some(side), snaps := Support(price, h, first, to, side), straddles := Undecided(price, h, first, to),
        volAtCross := h[first].snapshot.volume, tAtCross := Some(h[first].snapshot.epoch))
  }

  lemma WaitingStarts(lv: State, price: real, p: Settings, h: seq<Tick>, first: nat, side: Side)
    requires first < |h| && Awaits(lv, price, side) && Cand(price, h, first) == Some(side)
    ensures StepLevel(lv, h[first].snapshot, p, h[first].now) == (Waiting(lv, price, h, first, first + 1, side), None)
  {
    assert Support(price, h, first, first, side) == 0;
  }

  lemma WaitingGoesOn(lv: State, price: real, p: Settings, h: seq<Tick>, first: nat, last: nat, side: Side)
    requires first < last < |h| && Awaits(lv, price, side) && Holding(price, p, h, first, last, side)
    ensures var (lv', event) := StepLevel(Waiting(lv, price, h, first, last, side), h[last].snapshot, p, h[last].now);
      event == None ==> lv' == Waiting(lv, price, h, first, last + 1, side)
  {
    assert Undecided(price, h, first, last + 1) <= Grace(p);
    assert Cand(price, h, last).None? || Cand(price, h, last) == Some(side);
  }

  lemma {:induction false} StayRemembered(price: real, p: Settings, h: seq<Tick>, first: nat, last: nat, side: Side)
    requires first <= last < |h| && Holding(price, p, h, first, last, side)
    requires Awaits(Run(price, p, h[..first]).0, price, side)
    requires forall k :: first <= k <= last ==> Run(price, p, h).1[k].None?
    ensures Run(price, p, h[..last + 1]).0 == Waiting(Run(price, p, h[..first]).0, price, h, first, last + 1, side)
  {
    hide *;
    EventAt(price, p, h, last);
    HoldingShorter(price, p, h, first, last, side);
    var lv := Run(price, p, h[..first]).0;
    if first == last {
      WaitingStarts(lv, price, p, h, first, side);
    } else {
      WaitingGoesOn(lv, price, p, h, first, last, side);
      StayRemembered(price, p, h, first, last - 1, side);
    }
  }

  lemma HoldingShorter(price: real, p: Settings, h: seq<Tick>, first: nat, last: nat, side: Side)
    requires first <= last < |h| && Holding(price, p, h, first, last, side)
    ensures Cand(price, h, first) == Some(side)
    ensures first < last ==> Holding(price, p, h, first, last - 1, side)
  {
  }

  /** A break that stays on the new side is not passed over: once it has enough
      snapshots, the pace and the cooldown, an alert has been raised, however
      many undecided snapshots within the grace it contains. */
  lemma ConfirmedStayFires(price: real, p: Settings, h: seq<Tick>, first: nat, last: nat, side: Side)
    requires first < last < |h| && Stay(price, p, h, first, last, side)
    requires var lv := Run(price, p, h[..first]).0;
             Awaits(lv, price, side) && h[last].now - lv.lastFire >= p.cooldown
    requires Support(price, h, first, last + 1, side) >= p.confirm
    requires var a, b := h[first].snapshot, h[last].snapshot;
             PaceBetween(a, b) >= p.minPace
    ensures exists k :: first < k <= last && Run(price, p, h).1[k] == Some(side)
  {
    hide Run;
    var events := Run(price, p, h).1;
    EventAt(price, p, h, first);
    EventAt(price, p, h, last);
    if k :| first <= k <= last && events[k].Some? {
      EventAt(price, p, h, k);
      assert Cand(price, h, k).None? || Cand(price, h, k) == Some(side);
      RunInv(price, p, h[..k]);
      hide Undecided, Pace;
    } else {
      StayRemembered(price, p, h, first, last - 1, side);
      StayFires(Run(price, p, h[..first]).0, price, p, h, first, last, side);
    }
  }

  lemma StayFires(lv: State, price: real, p: Settings, h: seq<Tick>, first: nat, last: nat, side: Side)
    requires first < last < |h| && Stay(price, p, h, first, last, side)
    requires Awaits(lv, price, side) && h[last].now - lv.lastFire >= p.cooldown
    requires Support(price, h, first, last + 1, side) >= p.confirm
    requires var a, b := h[first].snapshot, h[last].snapshot;
             PaceBetween(a, b) >= p.minPace
    ensures StepLevel(Waiting(lv, price, h, first, last, side), h[last].snapshot, p, h[last].now).1 == Some(side)
  {
  }

  // ---------------------------------------------------------------- the object

  class Level {
    const price: real
    var side: Option<Side>
    var pending: Option<Side>
    var snaps: nat
    var straddles: nat
    var volAtCross: Option<int>
    var tAtCross: Option<real>
    var lastFire: real

    function View(): State
      reads this
    {
      State(price, side, pending, snaps, straddles, volAtCross, tAtCross, lastFire)
    }

    constructor (price: real)
      ensures View() == NewLevel(price)
    {
      this.price := price;
      side, pending, snaps, straddles, volAtCross, tAtCross, lastFire := None, None, 0, 0, None, None, 0.0;
    }

    method Clear()
      modifies this
      ensures View() == Reset(old(View()))
    {
      pending, snaps, straddles, volAtCross, tAtCross := None, 0, 0, None, None;
    }

    /** `step_level`. */
    method Step(s: Snapshot, p: Settings, now: real) returns (event: Option<Side>, progress: Option<Progress>)
      modifies this
      ensures (View(), event) == StepLevel(old(View()), s, p, now)
      ensures progress == ProgressOf(old(View()), s, p, now)
    {
      if side.None? {
        var mid := Mid(s);
        if mid.Some? {
          side := Some(if mid.value >= price then Above else Below);
          return None, Some(Baseline(side.value, mid.value));
        }
        return None, None;
      }
      var cand := Classify(price, s);
      if cand.None? {
        if pending.Some? {
          straddles := straddles + 1;
          if straddles > p.straddleGrace {
            Clear();
          }
        }
        return None, None;
      }
      straddles := 0;
      if cand == side {
        Clear();
        return None, None;
      }
      if pending != cand {
        pending, snaps, volAtCross, tAtCross := cand, 1, s.volume, Some(s.epoch);
        return None, None;
      }
      snaps := snaps + 1;
      var volume := OrInt(s.volume, 0);
      var traded := volume - OrInt(volAtCross, volume);
      var elapsed := Elapsed(s.epoch, OrReal(tAtCross, s.epoch));
      var pace := Pace(traded, elapsed);
      if snaps < p.confirm {
        return None, None;
      }
      if pace < p.minPace {
        return None, Some(NearMiss(cand.value, snaps, traded, pace));
      }
      if now - lastFire < p.cooldown {
        return None, None;
      }
      side, lastFire := cand, now;
      Clear();
      return cand, Some(Fired(traded, elapsed, pace));
    }
  }
}
