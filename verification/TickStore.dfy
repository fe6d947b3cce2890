/** The queue-fed batching writer (data/tick_store.py).

    A `Lane` is everything held for one kind of row: what the worker has
    pending, what has been executed in a transaction not yet committed
    (`open`), what the database file holds, the statistics, and (in the second
    group of fields) a record of what was offered, accepted and lost. Every
    stretch of code between two awaits is one `Action`; a run is any sequence
    of actions, and an action that is not possible in a state leaves it
    unchanged, so every interleaving is a run.
  */
module TickStore {

  datatype Kind = Trades | Quotes | Bars | Statuses

  datatype Row = Row(symbol: string, stamp: int, values: seq<real>)

  datatype Item = Data(kind: Kind, row: Row) | Sentinel

  datatype Lane = Lane(
    pending: seq<Row>,
    open: seq<Row>,
    committed: seq<Row>,
    written: nat,          // the statistics counter of this kind
    dropReason: nat,

    offered: seq<Row>,
    accepted: seq<Row>,
    lost: seq<Row>,        // rows a failed flush counted as dropped
    uncounted: nat,        // rows a failed flush had executed and then cleared
    closeMark: seq<Row>)   // what had been accepted when close() began

  /** The lanes, in the order a flush visits them. */
  datatype Lanes = Lanes(trades: Lane, quotes: Lane, bars: Lane, statuses: Lane) {
    function Of(k: Kind): Lane {
      match k
      case Trades => trades
      case Quotes => quotes
      case Bars => bars
      case Statuses => statuses
    }

    function With(k: Kind, l: Lane): Lanes {
      match k
      case Trades => this.(trades := l)
      case Quotes => this.(quotes := l)
      case Bars => this.(bars := l)
      case Statuses => this.(statuses := l)
    }
  }

  const EMPTY: Lane := Lane([], [], [], 0, 0, [], [], [], 0, [])

  datatype System = System(
    lanes: Lanes,
    queue: seq<Item>,
    queueMax: nat,         // zero means unbounded
    batchSize: nat,
    count: nat,
    started: bool,
    running: bool,
    finished: bool,        // the worker has left its loop
    connected: bool,
    dropped: nat,
    flushes: nat,
    closing: bool,         // close(worker) has begun
    sentinelPut: bool,
    cancelled: bool)       // close() gave up on the worker

  function Fresh(queueMax: nat, batchSize: nat): System {
    System(Lanes(EMPTY, EMPTY, EMPTY, EMPTY), [], queueMax, batchSize,
           0, false, false, false, true, 0, 0, false, false, false)
  }

  function PendingSize(m: Lanes): nat {
    |m.trades.pending| + |m.quotes.pending| + |m.bars.pending| + |m.statuses.pending|
  }

  function Written(m: Lanes): nat {
    m.trades.written + m.quotes.written + m.bars.written + m.statuses.written
  }

  function DropReasons(m: Lanes): nat {
    m.trades.dropReason + m.quotes.dropReason + m.bars.dropReason + m.statuses.dropReason
  }

  function LostSize(m: Lanes): nat {
    |m.trades.lost| + |m.quotes.lost| + |m.bars.lost| + |m.statuses.lost|
  }

  function Uncounted(m: Lanes): nat {
    m.trades.uncounted + m.quotes.uncounted + m.bars.uncounted + m.statuses.uncounted
  }

  function Offered(m: Lanes): nat {
    |m.trades.offered| + |m.quotes.offered| + |m.bars.offered| + |m.statuses.offered|
  }

  /** The rows of one kind waiting in the queue, in order. */
  function RowsOf(queue: seq<Item>, k: Kind): seq<Row> {
    if queue == [] then []
    else
      var last := queue[|queue| - 1];
      RowsOf(queue[..|queue| - 1], k) + (if last.Data? && last.kind == k then [last.row] else [])
  }

  // ---------------------------------------------------------------- transitions

  predicate Full(s: System) { s.queueMax > 0 && |s.queue| >= s.queueMax }

  function OfferLane(l: Lane, r: Row, full: bool): Lane {
    if full then l.(offered := l.offered + [r], dropReason := l.dropReason + 1)
    else l.(offered := l.offered + [r], accepted := l.accepted + [r])
  }

  function Offer(s: System, k: Kind, r: Row): System {
    s.(lanes := s.lanes.With(k, OfferLane(s.lanes.Of(k), r, Full(s))),
       queue := if Full(s) then s.queue else s.queue + [Data(k, r)],
       dropped := if Full(s) then s.dropped + 1 else s.dropped)
  }

  /** Where in its pass over the kinds a flush reaches each kind, and where it
      inserts the health row and commits. */
  function Position(k: Kind): nat {
    match k
    case Trades => 0
    case Quotes => 1
    case Bars => 2
    case Statuses => 3
  }

  const AT_COMMIT: nat := 4

  /** Whether a database error waiting at position `failAt` is met: a kind with
      nothing pending is not executed, and with nothing written there is
      neither a health row nor a commit. */
  predicate FailureHits(m: Lanes, failAt: nat) {
    || (failAt == Position(Trades) && m.trades.pending != [])
    || (failAt == Position(Quotes) && m.quotes.pending != [])
    || (failAt == Position(Bars) && m.bars.pending != [])
    || (failAt == Position(Statuses) && m.statuses.pending != [])
    || (failAt == AT_COMMIT && PendingSize(m) > 0)
  }

  datatype Outcome = Untouched | Committed | Executed | Lost

  function FlushOutcome(s: System, k: Kind, failAt: nat): Outcome {
    if !s.connected || PendingSize(s.lanes) == 0 then Untouched
    else if !FailureHits(s.lanes, failAt) then Committed
    else if Position(k) < failAt then Executed
    else Lost
  }

  function FlushLane(l: Lane, o: Outcome): Lane {
    match o
    case Untouched => l
    case Committed =>
      l.(committed := l.committed + l.open + l.pending, open := [], pending := [], written := l.written + |l.pending|)
    case Executed => l.(open := l.open + l.pending, pending := [], uncounted := l.uncounted + |l.pending|)
    case Lost => l.(lost := l.lost + l.pending, pending := [])
  }

  function FlushLanes(s: System, failAt: nat): Lanes {
    Lanes(FlushLane(s.lanes.trades, FlushOutcome(s, Trades, failAt)),
          FlushLane(s.lanes.quotes, FlushOutcome(s, Quotes, failAt)),
          FlushLane(s.lanes.bars, FlushOutcome(s, Bars, failAt)),
          FlushLane(s.lanes.statuses, FlushOutcome(s, Statuses, failAt)))
  }

  function Flush(s: System, failAt: nat): System {
    var lanes := FlushLanes(s, failAt);
    var ok := FlushOutcome(s, Trades, failAt).Committed?;
    s.(lanes := lanes,
       dropped := s.dropped + LostSize(lanes) - LostSize(s.lanes),
       flushes := if ok then s.flushes + 1 else s.flushes)
  }

  predicate WorkerLive(s: System) { s.started && !s.finished }

  function FlushIfDue(s: System, due: bool, failAt: nat): System {
    if (s.count >= s.batchSize || due) && s.count > 0 then Flush(s, failAt).(count := 0) else s
  }

  function LeaveIfDrained(s: System, failAt: nat): System {
    if !s.running && s.queue == [] then Flush(s, failAt).(finished := true) else s
  }

  /** The part of a worker iteration that follows the queue read. */
  function AfterRead(s: System, due: bool, failAt: nat): System {
    LeaveIfDrained(FlushIfDue(s, due, failAt), failAt)
  }

  function Buffer(s: System, k: Kind, r: Row): System {
    s.(lanes := s.lanes.With(k, s.lanes.Of(k).(pending := s.lanes.Of(k).pending + [r])), count := s.count + 1)
  }

  function TakeItem(s: System, due: bool, failAt: nat): System
    requires s.queue != []
  {
    var rest := s.(queue := s.queue[1..]);
    match s.queue[0]
    case Sentinel => Flush(rest, failAt).(finished := true)
    case Data(k, r) => AfterRead(Buffer(rest, k, r), due, failAt)
  }

  function MapLanes(m: Lanes, f: Lane -> Lane): Lanes {
    Lanes(f(m.trades), f(m.quotes), f(m.bars), f(m.statuses))
  }

  function CommitLane(l: Lane): Lane { l.(committed := l.committed + l.open, open := []) }

  function MarkLane(l: Lane): Lane { l.(closeMark := l.accepted) }

  datatype Action =
    | Enqueue(kind: Kind, row: Row)
    | StartWorker
    | WorkerItem(due: bool, failAt: nat)     // the read returned an item
    | WorkerTimeout(due: bool, failAt: nat)  // the read timed out
    | CloseBegin                             // close(worker), up to its put
    | PutSentinel                            // waits while the queue is full
    | WorkerCancelled                        // the 30 s wait expired
    | CloseEnd                               // once the worker is over
    | CloseWithoutWorker                     // close(None)

  function Step(s: System, a: Action): System {
    match a
    case Enqueue(k, r) => Offer(s, k, r)
    case StartWorker => if s.started || !s.connected then s else s.(started := true, running := true)
    case WorkerItem(due, failAt) => if WorkerLive(s) && s.queue != [] then TakeItem(s, due, failAt) else s
    case WorkerTimeout(due, failAt) => if WorkerLive(s) then AfterRead(s, due, failAt) else s
    case CloseBegin =>
      if s.closing || !s.connected then s
      else s.(running := false, closing := true, lanes := MapLanes(s.lanes, MarkLane))
    case PutSentinel =>
      if s.closing && !s.sentinelPut && !Full(s)
      then s.(queue := s.queue + [Sentinel], sentinelPut := true) else s
    case WorkerCancelled =>
      if s.sentinelPut && WorkerLive(s) && s.connected then s.(finished := true, cancelled := true) else s
    case CloseEnd =>
      if s.sentinelPut && s.finished && s.connected
      then s.(lanes := MapLanes(s.lanes, CommitLane), connected := false) else s
    case CloseWithoutWorker =>
      if s.closing || !s.connected then s
      else s.(running := false, lanes := MapLanes(s.lanes, CommitLane), connected := false)
  }

  function Run(s: System, actions: seq<Action>): System {
    if actions == [] then s else Step(Run(s, actions[..|actions| - 1]), actions[|actions| - 1])
  }

  // ---------------------------------------------------------------- conservation

  /** Every accepted row of the kind is in exactly one place, failures included;
      while no row of the kind has been lost, the places in order spell out the
      accepted rows in order. The counters agree with the contents. */
  ghost predicate LaneInv(l: Lane, queued: seq<Row>) {
    var kept := l.committed + l.open + l.pending + queued;
    && multiset(l.accepted) == multiset(kept) + multiset(l.lost)
    && (l.lost == [] ==> l.accepted == kept)
    && |l.offered| == |l.accepted| + l.dropReason
    && l.written + l.uncounted == |l.committed| + |l.open|
  }

  function Cap(batchSize: nat): nat { if batchSize == 0 then 1 else batchSize }

  ghost predicate Lanewise(m: Lanes, queue: seq<Item>) {
    forall k :: LaneInv(m.Of(k), RowsOf(queue, k))
  }

  ghost predicate Ledger(m: Lanes, queue: seq<Item>, dropped: nat) {
    Lanewise(m, queue) && dropped == DropReasons(m) + LostSize(m)
  }

  ghost predicate Inv(s: System) {
    && Ledger(s.lanes, s.queue, s.dropped)
    && (s.connected && !s.finished ==> s.count == PendingSize(s.lanes) && s.count < Cap(s.batchSize))
  }

  lemma RowsAppend(q: seq<Item>, i: Item, k: Kind)
    ensures RowsOf(q + [i], k) == if i.Data? && i.kind == k then RowsOf(q, k) + [i.row] else RowsOf(q, k)
  {
    assert (q + [i])[..|q|] == q;
  }

  lemma {:induction false} RowsTail(q: seq<Item>, k: Kind)
    requires q != []
    ensures RowsOf(q, k) == if q[0].Data? && q[0].kind == k then [q[0].row] + RowsOf(q[1..], k) else RowsOf(q[1..], k)
  {
    var n := |q| - 1;
    if n > 0 {
      RowsTail(q[..n], k);
      assert q[..n][1..] == q[1..][..n - 1];
    }
  }

  /** A flush moves the rows of a kind to the database or loses them; it never
      reorders them. */
  lemma FlushLaneKeeps(l: Lane, o: Outcome, queued: seq<Row>)
    requires LaneInv(l, queued)
    ensures LaneInv(FlushLane(l, o), queued)
    ensures o.Lost? || FlushLane(l, o).lost == l.lost
  {
    hide LaneInv;
    match o
    case Untouched =>
    case Lost =>
      LostLaneKeeps(l, queued);
    case _ =>
      StoredLaneKeeps(l, o, queued);
  }

  lemma StoredLaneKeeps(l: Lane, o: Outcome, queued: seq<Row>)
    requires LaneInv(l, queued) && (o.Committed? || o.Executed?)
    ensures LaneInv(FlushLane(l, o), queued)
  {
    if o.Committed? {
      assert l.committed + l.open + l.pending + queued == (l.committed + l.open + l.pending) + [] + [] + queued;
    } else {
      assert l.committed + l.open + l.pending + queued == l.committed + (l.open + l.pending) + [] + queued;
    }
  }

  lemma LostLaneKeeps(l: Lane, queued: seq<Row>)
    requires LaneInv(l, queued)
    ensures LaneInv(FlushLane(l, Lost), queued)
  {
    var before, stays := l.committed + l.open, l.committed + l.open + [];
    assert stays == before;
    if l.pending == [] {
      assert l.lost + l.pending == l.lost;
    }
    assert multiset(before + l.pending + queued) == multiset(before) + multiset(l.pending) + multiset(queued);
    assert multiset(stays + queued) == multiset(before) + multiset(queued);
    assert multiset(l.lost + l.pending) == multiset(l.lost) + multiset(l.pending);
  }

  lemma FlushKeeps(s: System, failAt: nat)
    requires Ledger(s.lanes, s.queue, s.dropped)
    ensures var t := Flush(s, failAt);
            && Ledger(t.lanes, t.queue, t.dropped)
            && (s.connected ==> PendingSize(t.lanes) == 0)
            && t == s.(lanes := t.lanes, dropped := t.dropped, flushes := t.flushes)
  {
    hide LaneInv;
    forall k ensures LaneInv(Flush(s, failAt).lanes.Of(k), RowsOf(s.queue, k)) {
      FlushLaneKeeps(s.lanes.Of(k), FlushOutcome(s, k, failAt), RowsOf(s.queue, k));
    }
  }

  lemma FlushIfDueKeeps(s: System, due: bool, failAt: nat)
    requires Ledger(s.lanes, s.queue, s.dropped) && (s.connected ==> s.count == PendingSize(s.lanes))
    ensures var t := FlushIfDue(s, due, failAt);
            && Ledger(t.lanes, t.queue, t.dropped)
            && (t.connected ==> t.count == PendingSize(t.lanes) && t.count < Cap(t.batchSize))
  {
    hide Flush, Ledger, PendingSize;
    FlushKeeps(s, failAt);
  }

  lemma AfterReadKeeps(s: System, due: bool, failAt: nat)
    requires Ledger(s.lanes, s.queue, s.dropped) && (s.connected ==> s.count == PendingSize(s.lanes))
    ensures Inv(AfterRead(s, due, failAt))
  {
    hide Flush, Ledger, FlushIfDue, PendingSize;
    FlushIfDueKeeps(s, due, failAt);
    FlushKeeps(FlushIfDue(s, due, failAt), failAt);
  }

  lemma OfferLaneKeeps(l: Lane, queued: seq<Row>, r: Row, full: bool)
    requires LaneInv(l, queued)
    ensures LaneInv(OfferLane(l, r, full), if full then queued else queued + [r])
  {
    if !full {
      var kept := l.committed + l.open + l.pending + queued;
      assert l.committed + l.open + l.pending + (queued + [r]) == kept + [r];
    }
  }

  lemma OfferLanes(m: Lanes, queue: seq<Item>, k: Kind, r: Row, full: bool)
    requires Lanewise(m, queue)
    ensures Lanewise(m.With(k, OfferLane(m.Of(k), r, full)), if full then queue else queue + [Data(k, r)])
  {
    hide LaneInv, OfferLane;
    var q := if full then queue else queue + [Data(k, r)];
    var n := m.With(k, OfferLane(m.Of(k), r, full));
    forall j ensures LaneInv(n.Of(j), RowsOf(q, j)) {
      assert LaneInv(m.Of(j), RowsOf(queue, j));
      RowsAppend(queue, Data(k, r), j);
      OfferLaneKeeps(m.Of(k), RowsOf(queue, k), r, full);
      assert n.Of(j) == if j == k then OfferLane(m.Of(k), r, full) else m.Of(j);
    }
  }

  lemma OfferKeeps(s: System, k: Kind, r: Row)
    requires Inv(s)
    ensures Inv(Offer(s, k, r))
  {
    hide Lanewise, PendingSize, LostSize, DropReasons, Full;
    OfferLanes(s.lanes, s.queue, k, r, Full(s));
    SizesWith(s.lanes, k, OfferLane(s.lanes.Of(k), r, Full(s)));
  }

  /** Replacing one lane by one that differs by `d` in its drop counter. */
  lemma SizesWith(m: Lanes, k: Kind, l: Lane)
    requires l.pending == m.Of(k).pending && l.lost == m.Of(k).lost
    ensures DropReasons(m.With(k, l)) == DropReasons(m) + l.dropReason - m.Of(k).dropReason
    ensures LostSize(m.With(k, l)) == LostSize(m) && PendingSize(m.With(k, l)) == PendingSize(m)
  {
    match k
    case Trades =>
    case Quotes =>
    case Bars =>
    case Statuses =>
  }

  lemma BufferLaneKeeps(l: Lane, queued: seq<Row>, r: Row)
    requires LaneInv(l, [r] + queued)
    ensures LaneInv(l.(pending := l.pending + [r]), queued)
  {
    assert l.committed + l.open + l.pending + ([r] + queued) == l.committed + l.open + (l.pending + [r]) + queued;
  }

  lemma BufferSizes(m: Lanes, k: Kind, r: Row)
    ensures var n := m.With(k, m.Of(k).(pending := m.Of(k).pending + [r]));
            && DropReasons(n) == DropReasons(m) && LostSize(n) == LostSize(m) && PendingSize(n) == PendingSize(m) + 1
  {
    match k
    case Trades =>
    case Quotes =>
    case Bars =>
    case Statuses =>
  }

  lemma BufferKeeps(s: System, k: Kind, r: Row)
    requires s.queue != [] && s.queue[0] == Data(k, r)
    requires Ledger(s.lanes, s.queue, s.dropped)
    ensures var t := Buffer(s.(queue := s.queue[1..]), k, r);
            && Ledger(t.lanes, t.queue, t.dropped)
            && t.connected == s.connected && t.batchSize == s.batchSize
            && t.count == s.count + 1 && PendingSize(t.lanes) == PendingSize(s.lanes) + 1
  {
    hide LaneInv, DropReasons, LostSize, PendingSize;
    BufferSizes(s.lanes, k, r);
    var t := Buffer(s.(queue := s.queue[1..]), k, r);
    forall j ensures LaneInv(t.lanes.Of(j), RowsOf(t.queue, j)) {
      assert LaneInv(s.lanes.Of(j), RowsOf(s.queue, j));
      RowsTail(s.queue, j);
      if j == k {
        BufferLaneKeeps(s.lanes.Of(j), RowsOf(t.queue, j), r);
      }
    }
  }

  lemma SentinelKeeps(m: Lanes, queue: seq<Item>, dropped: nat)
    requires Ledger(m, queue, dropped) && queue != [] && queue[0] == Sentinel
    ensures Ledger(m, queue[1..], dropped)
  {
    hide LaneInv;
    forall j ensures LaneInv(m.Of(j), RowsOf(queue[1..], j)) {
      assert LaneInv(m.Of(j), RowsOf(queue, j));
      RowsTail(queue, j);
    }
  }

  lemma TakeItemKeeps(s: System, due: bool, failAt: nat)
    requires Inv(s) && s.queue != [] && !s.finished
    ensures Inv(TakeItem(s, due, failAt))
  {
    hide Flush, Ledger, AfterRead, PendingSize, Buffer;
    var rest := s.(queue := s.queue[1..]);
    match s.queue[0]
    case Sentinel =>
      SentinelKeeps(s.lanes, s.queue, s.dropped);
      FlushKeeps(rest, failAt);
    case Data(k, r) =>
      BufferKeeps(s, k, r);
      AfterReadKeeps(Buffer(rest, k, r), due, failAt);
  }

  lemma CloseLaneKeeps(l: Lane, queued: seq<Row>)
    requires LaneInv(l, queued)
    ensures LaneInv(CommitLane(l), queued) && LaneInv(MarkLane(l), queued)
  {
    assert CommitLane(l).committed + CommitLane(l).open == l.committed + l.open;
  }

  lemma MapLanesKeeps(m: Lanes, queue: seq<Item>, dropped: nat)
    requires Ledger(m, queue, dropped)
    ensures Ledger(MapLanes(m, CommitLane), queue, dropped)
    ensures Ledger(MapLanes(m, MarkLane), queue, dropped)
    ensures PendingSize(MapLanes(m, MarkLane)) == PendingSize(m)
  {
    hide LaneInv;
    forall k
      ensures LaneInv(MapLanes(m, CommitLane).Of(k), RowsOf(queue, k))
      ensures LaneInv(MapLanes(m, MarkLane).Of(k), RowsOf(queue, k))
    {
      CloseLaneKeeps(m.Of(k), RowsOf(queue, k));
    }
  }

  lemma StepKeeps(s: System, a: Action)
    requires Inv(s)
    ensures Inv(Step(s, a))
  {
    hide Ledger, Offer, AfterRead, TakeItem, MapLanes, PendingSize;
    match a
    case Enqueue(k, r) => OfferKeeps(s, k, r);
    case WorkerItem(due, failAt) => if WorkerLive(s) && s.queue != [] { TakeItemKeeps(s, due, failAt); }
    case WorkerTimeout(due, failAt) => if WorkerLive(s) { AfterReadKeeps(s, due, failAt); }
    case PutSentinel => SentinelPutKeeps(s.lanes, s.queue, s.dropped);
    case _ => MapLanesKeeps(s.lanes, s.queue, s.dropped);
  }

  lemma SentinelPutKeeps(m: Lanes, queue: seq<Item>, dropped: nat)
    requires Ledger(m, queue, dropped)
    ensures Ledger(m, queue + [Sentinel], dropped)
  {
    hide LaneInv;
    forall k ensures LaneInv(m.Of(k), RowsOf(queue + [Sentinel], k)) {
      assert LaneInv(m.Of(k), RowsOf(queue, k));
      RowsAppend(queue, Sentinel, k);
    }
  }

  /** Under every interleaving of producers, worker and close, failed flushes
      included. */
  lemma {:induction false} RunKeeps(queueMax: nat, batchSize: nat, actions: seq<Action>)
    ensures Inv(Run(Fresh(queueMax, batchSize), actions))
  {
    var s := Fresh(queueMax, batchSize);
    hide Step;
    if actions == [] {
      assert forall k :: s.lanes.Of(k) == EMPTY;
    } else {
      RunKeeps(queueMax, batchSize, actions[..|actions| - 1]);
      StepKeeps(Run(s, actions[..|actions| - 1]), actions[|actions| - 1]);
    }
  }

  // ---------------------------------------------------------------- batch size

  lemma FlushWrites(s: System, failAt: nat)
    ensures var t := Flush(s, failAt);
            && t.flushes == (if FlushOutcome(s, Trades, failAt).Committed? then s.flushes + 1 else s.flushes)
            && Written(t.lanes) ==
               (if t.flushes == s.flushes then Written(s.lanes) else Written(s.lanes) + PendingSize(s.lanes))
            && (PendingSize(s.lanes) == 0 ==> t.flushes == s.flushes)
  {
    var l := s.lanes;
    assert FlushOutcome(s, Trades, failAt).Committed? ==>
        Written(FlushLanes(s, failAt)) == Written(l) + PendingSize(l);
  }

  ghost predicate WithinBatch(s: System, t: System) {
    || (t.flushes == s.flushes && Written(t.lanes) == Written(s.lanes))
    || (t.flushes == s.flushes + 1 && Written(t.lanes) <= Written(s.lanes) + Cap(s.batchSize))
  }

  /** A flush writes what was pending and leaves nothing pending, so a second
      one right after it writes nothing. */
  lemma OneFlush(s: System, failAt: nat)
    requires s.connected ==> PendingSize(s.lanes) <= Cap(s.batchSize)
    requires Ledger(s.lanes, s.queue, s.dropped)
    ensures WithinBatch(s, Flush(s, failAt))
    ensures Flush(s, failAt).connected == s.connected
    ensures s.connected ==> PendingSize(Flush(s, failAt).lanes) == 0
  {
    hide Flush, Ledger, PendingSize, Written;
    FlushWrites(s, failAt);
    FlushKeeps(s, failAt);
    if !s.connected { NoFlush(s, failAt); }
  }

  lemma NoFlush(s: System, failAt: nat)
    requires !s.connected || PendingSize(s.lanes) == 0
    ensures Flush(s, failAt).flushes == s.flushes && Written(Flush(s, failAt).lanes) == Written(s.lanes)
  {
  }

  lemma AfterReadWithinBatch(s: System, due: bool, failAt: nat)
    requires s.connected ==> PendingSize(s.lanes) == s.count <= Cap(s.batchSize)
    requires Ledger(s.lanes, s.queue, s.dropped)
    ensures WithinBatch(s, AfterRead(s, due, failAt))
  {
    hide Flush, Ledger, PendingSize, Written;
    OneFlush(s, failAt);
    if (s.count >= s.batchSize || due) && s.count > 0 {
      NoFlush(FlushIfDue(s, due, failAt), failAt);
    }
  }

  lemma TakeItemWithinBatch(s: System, due: bool, failAt: nat)
    requires Inv(s) && WorkerLive(s) && s.queue != []
    ensures WithinBatch(s, TakeItem(s, due, failAt))
  {
    hide Flush, Ledger, AfterRead, PendingSize, Written;
    var rest := s.(queue := s.queue[1..]);
    match s.queue[0]
    case Sentinel =>
      FlushWrites(rest, failAt);
      if !s.connected { NoFlush(rest, failAt); }
    case Data(k, r) =>
      BufferKeeps(s, k, r);
      WrittenWith(s.lanes, k, s.lanes.Of(k).(pending := s.lanes.Of(k).pending + [r]));
      AfterReadWithinBatch(Buffer(rest, k, r), due, failAt);
  }

  /** No action makes more than one flush, and a flush writes at most
      `batch_size` rows (one, when that is zero). */
  lemma FlushesStayWithinBatch(s: System, a: Action)
    requires Inv(s)
    ensures WithinBatch(s, Step(s, a))
  {
    hide Flush, Ledger, AfterRead, TakeItem, PendingSize, Written, MapLanes;
    match a
    case Enqueue(k, r) => WrittenWith(s.lanes, k, OfferLane(s.lanes.Of(k), r, Full(s)));
    case WorkerItem(due, failAt) => if WorkerLive(s) && s.queue != [] { TakeItemWithinBatch(s, due, failAt); }
    case WorkerTimeout(due, failAt) => if WorkerLive(s) { AfterReadWithinBatch(s, due, failAt); }
    case _ => WrittenMapped(s.lanes);
  }

  lemma WrittenWith(m: Lanes, k: Kind, l: Lane)
    requires l.written == m.Of(k).written
    ensures Written(m.With(k, l)) == Written(m)
  {
  }

  lemma WrittenMapped(m: Lanes)
    ensures Written(MapLanes(m, CommitLane)) == Written(m) && Written(MapLanes(m, MarkLane)) == Written(m)
  {
  }

  // ---------------------------------------------------------------- the loss ledger

  function Queued(queue: seq<Item>): nat {
    |RowsOf(queue, Trades)| + |RowsOf(queue, Quotes)| + |RowsOf(queue, Bars)| + |RowsOf(queue, Statuses)|
  }

  lemma LaneAccounting(l: Lane, queued: seq<Row>)
    requires LaneInv(l, queued)
    ensures |l.offered| == l.written + l.uncounted + |l.pending| + |queued| + |l.lost| + l.dropReason
  {
    assert |multiset(l.accepted)| == |multiset(l.committed + l.open + l.pending + queued)| + |multiset(l.lost)|;
  }

  /** What the operator can read (written, dropped, still on its way) accounts
      for every row offered, except the rows of kinds that a failed flush had
      executed before it failed. */
  lemma StatisticsGap(s: System)
    requires Inv(s)
    ensures Offered(s.lanes) ==
            Written(s.lanes) + s.dropped + PendingSize(s.lanes) + Queued(s.queue) + Uncounted(s.lanes)
  {
    hide LaneInv;
    LaneAccounting(s.lanes.Of(Trades), RowsOf(s.queue, Trades));
    LaneAccounting(s.lanes.Of(Quotes), RowsOf(s.queue, Quotes));
    LaneAccounting(s.lanes.Of(Bars), RowsOf(s.queue, Bars));
    LaneAccounting(s.lanes.Of(Statuses), RowsOf(s.queue, Statuses));
  }

  /** A flush widens the gap if and only if it meets a database error after a
      kind with pending rows has already been executed. */
  lemma GapGrows(s: System, failAt: nat)
    requires s.connected
    ensures Uncounted(s.lanes) < Uncounted(Flush(s, failAt).lanes) <==>
            (FailureHits(s.lanes, failAt) && exists k :: Position(k) < failAt && s.lanes.Of(k).pending != [])
    ensures Uncounted(s.lanes) <= Uncounted(Flush(s, failAt).lanes)
  {
    var l, t := s.lanes, Flush(s, failAt).lanes;
    forall k ensures t.Of(k).uncounted == l.Of(k).uncounted
                     + (if FailureHits(l, failAt) && Position(k) < failAt then |l.Of(k).pending| else 0) {
    }
    assert t.trades == t.Of(Trades) && t.quotes == t.Of(Quotes) && t.bars == t.Of(Bars) && t.statuses == t.Of(Statuses);
    assert l.trades == l.Of(Trades) && l.quotes == l.Of(Quotes) && l.bars == l.Of(Bars) && l.statuses == l.Of(Statuses);
  }

  function Buffered(r: Row): System {
    Step(Step(Step(Fresh(10, 2), StartWorker), Enqueue(Trades, r)), Enqueue(Quotes, r))
  }

  function GapTrace(r: Row): seq<Action> {
    [StartWorker, Enqueue(Trades, r), Enqueue(Quotes, r), WorkerItem(false, 1), WorkerItem(false, 1)]
  }

  lemma GapTraceSteps(r: Row)
    ensures Run(Fresh(10, 2), GapTrace(r)) == Step(Step(Buffered(r), WorkerItem(false, 1)), WorkerItem(false, 1))
  {
    hide Step, Fresh;
    var s, a := Fresh(10, 2), GapTrace(r);
    RunSnoc(s, a, 5);
    RunSnoc(s, a, 4);
    RunSnoc(s, a, 3);
    RunSnoc(s, a, 2);
    RunSnoc(s, a, 1);
    assert a[..0] == [];
  }

  /** One trade and one quote are pending and the insert of the quotes fails:
      the trade is neither counted as written nor as dropped. */
  lemma GapExample(r: Row)
    ensures var s := Run(Fresh(10, 2), GapTrace(r));
            && Offered(s.lanes) == 2 && Written(s.lanes) == 0 && s.dropped == 1
            && PendingSize(s.lanes) == 0 && Queued(s.queue) == 0 && Uncounted(s.lanes) == 1
  {
    GapTraceSteps(r);
    GapBefore(r);
    hide Run, Buffered;
    var s4 := Step(Buffered(r), WorkerItem(false, 1));
    var s5 := Step(s4, WorkerItem(false, 1));
    assert s5.lanes.trades.open == [r] && s5.lanes.quotes.lost == [r] && s5.queue == [];
  }

  lemma GapBefore(r: Row)
    ensures var s4 := Step(Buffered(r), WorkerItem(false, 1));
            s4 == System(Lanes(EMPTY.(pending := [r], offered := [r], accepted := [r]),
                               EMPTY.(offered := [r], accepted := [r]), EMPTY, EMPTY),
                         [Data(Quotes, r)], 10, 2, 1, true, true, false, true, 0, 0, false, false, false)
  {
    assert Buffered(r).queue == [Data(Trades, r), Data(Quotes, r)];
  }

  lemma RunSnoc(s: System, actions: seq<Action>, n: nat)
    requires 0 < n <= |actions|
    ensures Run(s, actions[..n]) == Step(Run(s, actions[..n - 1]), actions[n - 1])
    ensures Run(s, actions[..|actions|]) == Run(s, actions)
  {
    assert actions[..n][..n - 1] == actions[..n - 1];
    assert actions[..|actions|] == actions;
  }

  predicate NoDatabaseError(a: Action) {
    (a.WorkerItem? || a.WorkerTimeout?) ==> a.failAt > AT_COMMIT
  }

  ghost predicate CleanLane(l: Lane) { l.lost == [] && l.open == [] && l.uncounted == 0 }

  ghost predicate Clean(m: Lanes) { forall k :: CleanLane(m.Of(k)) }

  lemma FlushClean(s: System, failAt: nat)
    requires Clean(s.lanes) && failAt > AT_COMMIT
    ensures Clean(Flush(s, failAt).lanes)
  {
    forall k ensures CleanLane(Flush(s, failAt).lanes.Of(k)) {
      assert CleanLane(s.lanes.Of(k));
    }
  }

  lemma AfterReadClean(s: System, due: bool, failAt: nat)
    requires Clean(s.lanes) && failAt > AT_COMMIT
    ensures Clean(AfterRead(s, due, failAt).lanes)
  {
    hide Flush, Clean;
    FlushClean(s, failAt);
    FlushClean(FlushIfDue(s, due, failAt), failAt);
  }

  lemma WithClean(m: Lanes, k: Kind, l: Lane)
    requires Clean(m) && CleanLane(l)
    ensures Clean(m.With(k, l))
  {
    forall j ensures CleanLane(m.With(k, l).Of(j)) {
      assert CleanLane(m.Of(j));
    }
  }

  lemma MappedClean(m: Lanes)
    requires Clean(m)
    ensures Clean(MapLanes(m, CommitLane)) && Clean(MapLanes(m, MarkLane))
  {
    forall k ensures CleanLane(MapLanes(m, CommitLane).Of(k)) && CleanLane(MapLanes(m, MarkLane).Of(k)) {
      assert CleanLane(m.Of(k));
    }
  }

  lemma TakeItemClean(s: System, due: bool, failAt: nat)
    requires Clean(s.lanes) && failAt > AT_COMMIT && s.queue != []
    ensures Clean(TakeItem(s, due, failAt).lanes)
  {
    hide Flush, Clean, AfterRead;
    var rest := s.(queue := s.queue[1..]);
    match s.queue[0]
    case Sentinel => FlushClean(rest, failAt);
    case Data(k, r) =>
      CleanAt(s.lanes, k);
      WithClean(s.lanes, k, s.lanes.Of(k).(pending := s.lanes.Of(k).pending + [r]));
      AfterReadClean(Buffer(rest, k, r), due, failAt);
  }

  lemma StepClean(s: System, a: Action)
    requires Clean(s.lanes) && NoDatabaseError(a)
    ensures Clean(Step(s, a).lanes)
  {
    hide Flush, Clean, AfterRead, TakeItem, MapLanes;
    match a
    case Enqueue(k, r) =>
      CleanAt(s.lanes, k);
      WithClean(s.lanes, k, OfferLane(s.lanes.Of(k), r, Full(s)));
    case WorkerItem(due, failAt) => if WorkerLive(s) && s.queue != [] { TakeItemClean(s, due, failAt); }
    case WorkerTimeout(due, failAt) => if WorkerLive(s) { AfterReadClean(s, due, failAt); }
    case _ => MappedClean(s.lanes);
  }

  lemma CleanAt(m: Lanes, k: Kind)
    requires Clean(m)
    ensures CleanLane(m.Of(k))
  {
  }

  lemma {:induction false} RunClean(queueMax: nat, batchSize: nat, actions: seq<Action>)
    requires forall a :: a in actions ==> NoDatabaseError(a)
    ensures Clean(Run(Fresh(queueMax, batchSize), actions).lanes)
  {
    hide Step;
    var s := Fresh(queueMax, batchSize);
    if actions == [] {
      assert forall k :: s.lanes.Of(k) == EMPTY;
    } else {
      RunClean(queueMax, batchSize, actions[..|actions| - 1]);
      StepClean(Run(s, actions[..|actions| - 1]), actions[|actions| - 1]);
    }
  }

  /** Without database errors, for each kind: the file, then the worker, then
      the queue hold exactly the accepted rows in order, the counter says what
      is in the file, and every row offered was accepted or counted as dropped. */
  lemma InOrderWithoutErrors(queueMax: nat, batchSize: nat, actions: seq<Action>, k: Kind)
    requires forall a :: a in actions ==> NoDatabaseError(a)
    ensures var s := Run(Fresh(queueMax, batchSize), actions);
            var l := s.lanes.Of(k);
            && l.accepted == l.committed + l.pending + RowsOf(s.queue, k)
            && l.written == |l.committed|
            && |l.offered| == |l.accepted| + l.dropReason
            && s.dropped == DropReasons(s.lanes)
  {
    var s := Run(Fresh(queueMax, batchSize), actions);
    RunKeeps(queueMax, batchSize, actions);
    RunClean(queueMax, batchSize, actions);
    InOrder(s, k);
  }

  lemma InOrder(s: System, k: Kind)
    requires Inv(s) && Clean(s.lanes)
    ensures var l := s.lanes.Of(k);
            && l.accepted == l.committed + l.pending + RowsOf(s.queue, k)
            && l.written == |l.committed|
            && |l.offered| == |l.accepted| + l.dropReason
            && s.dropped == DropReasons(s.lanes)
  {
    var l := s.lanes.Of(k);
    assert CleanLane(l) && LaneInv(l, RowsOf(s.queue, k));
    assert l.committed + [] == l.committed;
    NothingLost(s.lanes);
  }

  lemma NothingLost(m: Lanes)
    requires Clean(m)
    ensures LostSize(m) == 0
  {
    CleanAt(m, Trades);
    CleanAt(m, Quotes);
    CleanAt(m, Bars);
    CleanAt(m, Statuses);
  }

  // ---------------------------------------------------------------- close

  /** What the worker will read before it meets the sentinel. */
  function UpToSentinel(q: seq<Item>): seq<Item> {
    if q == [] || q[0] == Sentinel then [] else [q[0]] + UpToSentinel(q[1..])
  }

  lemma {:induction false} UpToAll(q: seq<Item>)
    requires Sentinel !in q
    ensures UpToSentinel(q) == q
  {
    if q != [] { UpToAll(q[1..]); }
  }

  lemma {:induction false} UpToAppend(q: seq<Item>, i: Item)
    ensures UpToSentinel(q + [i]) == if Sentinel !in q && i.Data? then UpToSentinel(q) + [i] else UpToSentinel(q)
  {
    if q != [] {
      assert (q + [i])[1..] == q[1..] + [i];
      assert Sentinel in q <==> q[0] == Sentinel || Sentinel in q[1..];
      UpToAppend(q[1..], i);
    }
  }

  /** Unless rows of the kind were lost, everything accepted before close()
      began has been executed, is pending, or is in `ahead`. */
  ghost predicate MarkHeld(l: Lane, ahead: seq<Row>) {
    l.lost == [] ==> l.closeMark <= l.committed + l.open + l.pending + ahead
  }

  ghost predicate MarksHeld(m: Lanes, queue: seq<Item>) {
    forall k :: MarkHeld(m.Of(k), RowsOf(UpToSentinel(queue), k))
  }

  /** The same once the worker is over: nothing is pending or ahead any more. */
  ghost predicate MarkDone(l: Lane) { l.lost == [] ==> l.closeMark <= l.committed + l.open }

  ghost predicate MarksDone(m: Lanes) { forall k :: MarkDone(m.Of(k)) }

  ghost predicate MarksSaved(m: Lanes) {
    forall k :: m.Of(k).lost == [] ==> m.Of(k).closeMark <= m.Of(k).committed
  }

  ghost predicate CloseInv(s: System) {
    && (Sentinel in s.queue ==> s.sentinelPut)
    && (s.sentinelPut ==> s.closing)
    && (s.started && s.connected && !s.running ==> s.closing)
    && (s.finished && s.connected ==> s.closing)
    && (s.closing && !s.finished ==> s.connected && MarksHeld(s.lanes, s.queue))
    && (s.closing && s.finished && !s.cancelled ==> MarksDone(s.lanes))
    && (s.closing && !s.connected && !s.cancelled ==> MarksSaved(s.lanes))
  }

  lemma FlushMark(l: Lane, o: Outcome, ahead: seq<Row>)
    requires MarkHeld(l, ahead)
    ensures MarkHeld(FlushLane(l, o), ahead)
  {
    var f := FlushLane(l, o);
    match o
    case Untouched =>
    case Committed => assert f.committed + f.open + f.pending == l.committed + l.open + l.pending;
    case Executed => assert f.committed + f.open + f.pending == l.committed + l.open + l.pending;
    case Lost => if l.pending == [] { assert l.lost + l.pending == l.lost; }
  }

  lemma FlushMarks(s: System, failAt: nat)
    requires MarksHeld(s.lanes, s.queue)
    ensures MarksHeld(Flush(s, failAt).lanes, s.queue)
  {
    hide MarkHeld;
    forall k ensures MarkHeld(Flush(s, failAt).lanes.Of(k), RowsOf(UpToSentinel(s.queue), k)) {
      FlushMark(s.lanes.Of(k), FlushOutcome(s, k, failAt), RowsOf(UpToSentinel(s.queue), k));
    }
  }

  /** With nothing more to read, a flush on an open connection settles close. */
  lemma LastFlush(s: System, failAt: nat)
    requires MarksHeld(s.lanes, s.queue) && UpToSentinel(s.queue) == [] && s.connected
    ensures MarksDone(Flush(s, failAt).lanes)
  {
    FlushMarks(s, failAt);
    var m := Flush(s, failAt).lanes;
    forall k ensures MarkDone(m.Of(k)) {
      assert MarkHeld(m.Of(k), RowsOf([], k));
      FlushEmpties(s, failAt, k);
      var l := m.Of(k);
      assert l.committed + l.open + [] + [] == l.committed + l.open;
    }
  }

  lemma FlushEmpties(s: System, failAt: nat, k: Kind)
    requires s.connected
    ensures Flush(s, failAt).lanes.Of(k).pending == []
  {
  }

  lemma BufferMark(l: Lane, r: Row, ahead: seq<Row>)
    requires MarkHeld(l, [r] + ahead)
    ensures MarkHeld(l.(pending := l.pending + [r]), ahead)
  {
    assert l.committed + l.open + l.pending + ([r] + ahead) == l.committed + l.open + (l.pending + [r]) + ahead;
  }

  lemma BufferMarks(m: Lanes, queue: seq<Item>, k: Kind, r: Row)
    requires queue != [] && queue[0] == Data(k, r) && MarksHeld(m, queue)
    ensures MarksHeld(m.With(k, m.Of(k).(pending := m.Of(k).pending + [r])), queue[1..])
  {
    hide MarkHeld;
    var n := m.With(k, m.Of(k).(pending := m.Of(k).pending + [r]));
    var ahead := UpToSentinel(queue[1..]);
    forall j ensures MarkHeld(n.Of(j), RowsOf(ahead, j)) {
      assert MarkHeld(m.Of(j), RowsOf(UpToSentinel(queue), j));
      RowsTail([queue[0]] + ahead, j);
      assert ([queue[0]] + ahead)[1..] == ahead;
      if j == k { BufferMark(m.Of(k), r, RowsOf(ahead, k)); }
    }
  }

  lemma AheadGrows(queue: seq<Item>, i: Item, j: Kind)
    ensures RowsOf(UpToSentinel(queue), j) <= RowsOf(UpToSentinel(queue + [i]), j)
  {
    UpToAppend(queue, i);
    RowsAppend(UpToSentinel(queue), i, j);
  }

  lemma OfferMark(l: Lane, r: Row, full: bool, ahead: seq<Row>, more: seq<Row>)
    requires MarkHeld(l, ahead) && ahead <= more
    ensures MarkHeld(l, more) && MarkHeld(OfferLane(l, r, full), more)
  {
    assert l.committed + l.open + l.pending + ahead <= l.committed + l.open + l.pending + more;
  }

  lemma OfferMarks(m: Lanes, queue: seq<Item>, k: Kind, r: Row, full: bool)
    requires MarksHeld(m, queue)
    ensures MarksHeld(m.With(k, OfferLane(m.Of(k), r, full)), if full then queue else queue + [Data(k, r)])
  {
    hide MarkHeld, OfferLane;
    var q := if full then queue else queue + [Data(k, r)];
    var n := m.With(k, OfferLane(m.Of(k), r, full));
    forall j ensures MarkHeld(n.Of(j), RowsOf(UpToSentinel(q), j)) {
      AheadGrows(queue, Data(k, r), j);
      OfferMark(m.Of(j), r, full, RowsOf(UpToSentinel(queue), j), RowsOf(UpToSentinel(q), j));
      assert n.Of(j) == if j == k then OfferLane(m.Of(k), r, full) else m.Of(j);
    }
  }

  lemma AfterReadCloses(s: System, due: bool, failAt: nat)
    requires CloseInv(s) && WorkerLive(s)
    ensures CloseInv(AfterRead(s, due, failAt))
  {
    hide MarksHeld, MarksDone, MarksSaved, Flush;
    FlushFrame(s, failAt);
    var t := FlushIfDue(s, due, failAt);
    FlushFrame(t, failAt);
    if s.closing {
      FlushMarks(s, failAt);
      if !t.running && t.queue == [] { LastFlush(t, failAt); }
    }
  }

  lemma FlushFrame(s: System, failAt: nat)
    ensures var t := Flush(s, failAt); t == s.(lanes := t.lanes, dropped := t.dropped, flushes := t.flushes)
  {
  }

  lemma TakeItemCloses(s: System, due: bool, failAt: nat)
    requires CloseInv(s) && WorkerLive(s) && s.queue != []
    ensures CloseInv(TakeItem(s, due, failAt))
  {
    hide MarksHeld, MarksDone, MarksSaved, Flush, AfterRead;
    var rest := s.(queue := s.queue[1..]);
    match s.queue[0]
    case Sentinel =>
      FlushFrame(rest, failAt);
      SentinelMarks(s, failAt);
    case Data(k, r) =>
      if s.closing { BufferMarks(s.lanes, s.queue, k, r); }
      AfterReadCloses(Buffer(rest, k, r), due, failAt);
  }

  lemma SentinelMarks(s: System, failAt: nat)
    requires s.queue != [] && s.queue[0] == Sentinel && s.connected && MarksHeld(s.lanes, s.queue)
    ensures MarksDone(Flush(s.(queue := s.queue[1..]), failAt).lanes)
  {
    LastFlush(s, failAt);
    assert FlushLanes(s.(queue := s.queue[1..]), failAt) == FlushLanes(s, failAt);
  }

  lemma BeginMark(l: Lane, queued: seq<Row>)
    requires LaneInv(l, queued)
    ensures MarkHeld(MarkLane(l), queued)
  {
  }

  lemma BeginMarks(m: Lanes, queue: seq<Item>)
    requires Lanewise(m, queue) && Sentinel !in queue
    ensures MarksHeld(MapLanes(m, MarkLane), queue)
  {
    hide LaneInv, MarkHeld, MarkLane;
    UpToAll(queue);
    forall k ensures MarkHeld(MapLanes(m, MarkLane).Of(k), RowsOf(UpToSentinel(queue), k)) {
      BeginMark(m.Of(k), RowsOf(queue, k));
      assert MapLanes(m, MarkLane).Of(k) == MarkLane(m.Of(k));
    }
  }

  lemma EndMarks(m: Lanes)
    requires MarksDone(m)
    ensures MarksSaved(MapLanes(m, CommitLane)) && MarksDone(MapLanes(m, CommitLane))
  {
    forall k
      ensures MapLanes(m, CommitLane).Of(k).lost == [] ==>
          MapLanes(m, CommitLane).Of(k).closeMark <= MapLanes(m, CommitLane).Of(k).committed
      ensures MarkDone(MapLanes(m, CommitLane).Of(k))
    {
      assert MarkDone(m.Of(k));
    }
  }

  lemma OfferDone(m: Lanes, k: Kind, r: Row, full: bool)
    ensures MarksDone(m) ==> MarksDone(m.With(k, OfferLane(m.Of(k), r, full)))
    ensures MarksSaved(m) ==> MarksSaved(m.With(k, OfferLane(m.Of(k), r, full)))
  {
    var n := m.With(k, OfferLane(m.Of(k), r, full));
    assert forall j :: n.Of(j).lost == m.Of(j).lost && n.Of(j).closeMark == m.Of(j).closeMark
                    && n.Of(j).committed == m.Of(j).committed && n.Of(j).open == m.Of(j).open;
    if MarksDone(m) {
      forall j ensures MarkDone(n.Of(j)) { assert MarkDone(m.Of(j)); }
    }
  }

  lemma OfferCloses(s: System, k: Kind, r: Row)
    requires CloseInv(s)
    ensures CloseInv(Offer(s, k, r))
  {
    hide MarksHeld, MarksDone, MarksSaved, OfferLane;
    OfferDone(s.lanes, k, r, Full(s));
    if MarksHeld(s.lanes, s.queue) { OfferMarks(s.lanes, s.queue, k, r, Full(s)); }
  }

  lemma PutCloses(m: Lanes, queue: seq<Item>)
    requires MarksHeld(m, queue)
    ensures MarksHeld(m, queue + [Sentinel])
  {
    UpToAppend(queue, Sentinel);
  }

  lemma StepCloses(s: System, a: Action)
    requires Inv(s) && CloseInv(s)
    ensures CloseInv(Step(s, a))
  {
    hide MarksHeld, MarksDone, MarksSaved, Offer, AfterRead, TakeItem, MapLanes, Lanewise, Full;
    match a
    case Enqueue(k, r) => OfferCloses(s, k, r);
    case StartWorker =>
    case WorkerItem(due, failAt) => if WorkerLive(s) && s.queue != [] { TakeItemCloses(s, due, failAt); }
    case WorkerTimeout(due, failAt) => if WorkerLive(s) { AfterReadCloses(s, due, failAt); }
    case CloseBegin => if !s.closing && s.connected { BeginMarks(s.lanes, s.queue); }
    case PutSentinel => if MarksHeld(s.lanes, s.queue) { PutCloses(s.lanes, s.queue); }
    case WorkerCancelled =>
    case CloseEnd => if MarksDone(s.lanes) { EndMarks(s.lanes); }
    case CloseWithoutWorker =>
  }

  lemma {:induction false} RunCloses(queueMax: nat, batchSize: nat, actions: seq<Action>)
    ensures CloseInv(Run(Fresh(queueMax, batchSize), actions))
  {
    hide Step, CloseInv, Inv;
    var s := Fresh(queueMax, batchSize);
    if actions == [] {
      FreshCloses(queueMax, batchSize);
    } else {
      RunCloses(queueMax, batchSize, actions[..|actions| - 1]);
      RunKeeps(queueMax, batchSize, actions[..|actions| - 1]);
      StepCloses(Run(s, actions[..|actions| - 1]), actions[|actions| - 1]);
    }
  }

  lemma FreshCloses(queueMax: nat, batchSize: nat)
    ensures CloseInv(Fresh(queueMax, batchSize))
  {
  }

  /** A close whose worker drained: everything of a kind accepted before the
      close began is in the file, in order, unless a failed flush lost rows of
      that kind; later rows may follow it. */
  lemma DrainedClose(queueMax: nat, batchSize: nat, actions: seq<Action>, k: Kind)
    ensures var s := Run(Fresh(queueMax, batchSize), actions);
            var l := s.lanes.Of(k);
            s.closing && !s.connected && !s.cancelled && l.lost == [] ==> l.closeMark <= l.committed
  {
    RunCloses(queueMax, batchSize, actions);
  }

  // ---------------------------------------------------------------- the object

  const VISITED: seq<Kind> := [Trades, Quotes, Bars, Statuses]

  /** `executemany` for one kind: rows go to the open transaction and leave
      `pending`; whether they will be counted is decided later. */
  function ExecuteLane(l: Lane): Lane { l.(open := l.open + l.pending, pending := []) }

  function Visited(m: Lanes, i: nat): Lanes {
    Lanes(if i > 0 then ExecuteLane(m.trades) else m.trades, if i > 1 then ExecuteLane(m.quotes) else m.quotes,
          if i > 2 then ExecuteLane(m.bars) else m.bars, if i > 3 then ExecuteLane(m.statuses) else m.statuses)
  }

  function WroteUpTo(m: Lanes, i: nat): seq<nat> {
    [if i > 0 then |m.trades.pending| else 0, if i > 1 then |m.quotes.pending| else 0,
     if i > 2 then |m.bars.pending| else 0, if i > 3 then |m.statuses.pending| else 0]
  }

  function CommitLaneWrote(l: Lane, n: nat): Lane {
    l.(committed := l.committed + l.open, open := [], written := l.written + n)
  }

  function DropLane(l: Lane, n: nat): Lane {
    l.(lost := l.lost + l.pending, pending := [], uncounted := l.uncounted + n)
  }

  function EachLane(m: Lanes, f: (Lane, nat) -> Lane, wrote: seq<nat>): Lanes
    requires |wrote| == 4
  {
    Lanes(f(m.trades, wrote[0]), f(m.quotes, wrote[1]), f(m.bars, wrote[2]), f(m.statuses, wrote[3]))
  }

  lemma NothingToExecute(l: Lane)
    requires l.pending == []
    ensures ExecuteLane(l) == l
  {
    assert l.open + l.pending == l.open;
  }

  function Flushed(s: System, failAt: nat): (Lanes, nat, nat) {
    var t := Flush(s, failAt);
    (t.lanes, t.dropped, t.flushes)
  }

  lemma FlushedIs(s: System, failAt: nat)
    ensures var t := Flush(s, failAt);
            && Flushed(s, failAt) == (t.lanes, t.dropped, t.flushes)
            && t == s.(lanes := t.lanes, dropped := t.dropped, flushes := t.flushes)
  {
  }

  lemma HitsIs(m: Lanes, failAt: nat)
    requires PendingSize(m) > 0
    ensures FailureHits(m, failAt) <==>
            (if failAt < 4 then m.Of(VISITED[failAt]).pending != [] else failAt == AT_COMMIT)
  {
  }

  lemma IdleFlush(s: System, failAt: nat)
    requires !s.connected || PendingSize(s.lanes) == 0
    ensures Flush(s, failAt) == s
  {
  }

  lemma CommitLaneIs(l: Lane)
    ensures CommitLaneWrote(ExecuteLane(l), |l.pending|) == FlushLane(l, Committed)
  {
    assert l.committed + (l.open + l.pending) == l.committed + l.open + l.pending;
  }

  lemma DropLaneIs(l: Lane)
    ensures DropLane(ExecuteLane(l), |l.pending|) == FlushLane(l, Executed)
    ensures DropLane(l, 0) == FlushLane(l, Lost)
  {
    assert l.lost + [] == l.lost;
  }

  lemma CommittedFlush(s: System, failAt: nat)
    requires s.connected && PendingSize(s.lanes) > 0 && !FailureHits(s.lanes, failAt)
    ensures EachLane(Visited(s.lanes, 4), CommitLaneWrote, WroteUpTo(s.lanes, 4)) == Flush(s, failAt).lanes
    ensures Flush(s, failAt).dropped == s.dropped && Flush(s, failAt).flushes == s.flushes + 1
  {
    hide CommitLaneWrote, ExecuteLane, FlushLane;
    CommitLaneIs(s.lanes.trades);
    CommitLaneIs(s.lanes.quotes);
    CommitLaneIs(s.lanes.bars);
    CommitLaneIs(s.lanes.statuses);
    CommittedLoses(s, failAt);
  }

  lemma CommittedLoses(s: System, failAt: nat)
    requires s.connected && PendingSize(s.lanes) > 0 && !FailureHits(s.lanes, failAt)
    ensures LostSize(FlushLanes(s, failAt)) == LostSize(s.lanes)
  {
  }

  lemma FailedFlush(s: System, failAt: nat)
    requires s.connected && PendingSize(s.lanes) > 0 && FailureHits(s.lanes, failAt)
    ensures EachLane(Visited(s.lanes, failAt), DropLane, WroteUpTo(s.lanes, failAt)) == Flush(s, failAt).lanes
    ensures Flush(s, failAt).dropped == s.dropped + PendingSize(Visited(s.lanes, failAt))
    ensures Flush(s, failAt).flushes == s.flushes
  {
    hide DropLane, ExecuteLane, FlushLane;
    DropLaneIs(s.lanes.trades);
    DropLaneIs(s.lanes.quotes);
    DropLaneIs(s.lanes.bars);
    DropLaneIs(s.lanes.statuses);
    FailedLoses(s, failAt);
  }

  lemma FailedLoses(s: System, failAt: nat)
    requires s.connected && PendingSize(s.lanes) > 0 && FailureHits(s.lanes, failAt)
    ensures LostSize(FlushLanes(s, failAt)) == LostSize(s.lanes) + PendingSize(Visited(s.lanes, failAt))
  {
  }

  class TickStore {
    var lanes: Lanes
    var queue: seq<Item>
    var count: nat
    var started: bool
    var running: bool
    var finished: bool
    var connected: bool
    var dropped: nat
    var flushes: nat
    const queueMax: nat
    const batchSize: nat
    ghost var closing: bool
    ghost var sentinelPut: bool
    ghost var cancelled: bool

    ghost function State(): System
      reads this
    {
      System(lanes, queue, queueMax, batchSize, count, started, running, finished, connected, dropped, flushes,
             closing, sentinelPut, cancelled)
    }

    lemma StateIs()
      ensures State() == System(lanes, queue, queueMax, batchSize, count, started, running, finished, connected,
                                dropped, flushes, closing, sentinelPut, cancelled)
    {
    }

    constructor (queueMax: nat, batchSize: nat)
      ensures State() == Fresh(queueMax, batchSize)
    {
      this.queueMax, this.batchSize := queueMax, batchSize;
      lanes := Lanes(EMPTY, EMPTY, EMPTY, EMPTY);
      queue, count, dropped, flushes := [], 0, 0, 0;
      started, running, finished, connected := false, false, false, true;
      closing, sentinelPut, cancelled := false, false, false;
    }

    /** `_put`: never waits; a row that does not fit is counted. */
    method Put(k: Kind, r: Row)
      modifies this
      ensures State() == Step(old(State()), Enqueue(k, r))
    {
      var full := queueMax > 0 && |queue| >= queueMax;
      lanes := lanes.With(k, OfferLane(lanes.Of(k), r, full));
      if full {
        dropped := dropped + 1;
      } else {
        queue := queue + [Data(k, r)];
      }
    }

    /** The pass over the kinds: each non-empty one is executed and cleared,
        until one fails. */
    method ExecutePending(failAt: nat) returns (reached: nat, wrote: seq<nat>)
      modifies this`lanes
      ensures lanes == Visited(old(lanes), reached) && wrote == WroteUpTo(old(lanes), reached)
      ensures |wrote| == 4
      ensures reached == if failAt < 4 && old(lanes).Of(VISITED[failAt]).pending != [] then failAt else 4
    {
      hide ExecuteLane;
      ghost var m := lanes;
      reached := 0;
      wrote := [0, 0, 0, 0];
      while reached < |VISITED|
        invariant 0 <= reached <= 4
        invariant lanes == Visited(m, reached) && wrote == WroteUpTo(m, reached)
        invariant failAt < reached ==> m.Of(VISITED[failAt]).pending == []
      {
        var k := VISITED[reached];
        if lanes.Of(k).pending != [] {
          if reached == failAt {
            return;
          }
          wrote := wrote[reached := |lanes.Of(k).pending|];
          lanes := lanes.With(k, ExecuteLane(lanes.Of(k)));
        } else {
          NothingToExecute(lanes.Of(k));
        }
        reached := reached + 1;
      }
    }

    /** `_flush`: execute kind by kind, then commit; on an error drop what is
        still pending. */
    method FlushPending(failAt: nat)
      modifies this`lanes, this`dropped, this`flushes
      ensures (lanes, dropped, flushes) == Flushed(old(State()), failAt)
    {
      assert AT_COMMIT == 4;
      hide *;
      ghost var s := State();
      StateIs();
      FlushedIs(s, failAt);
      if !connected || PendingSize(lanes) == 0 {
        IdleFlush(s, failAt);
        return;
      }
      HitsIs(lanes, failAt);
      var reached, wrote := ExecutePending(failAt);
      if reached < 4 || failAt == AT_COMMIT {
        FailedFlush(s, failAt);
        dropped := dropped + PendingSize(lanes);
        lanes := EachLane(lanes, DropLane, wrote);
      } else {
        CommittedFlush(s, failAt);
        lanes := EachLane(lanes, CommitLaneWrote, wrote);
        flushes := flushes + 1;
      }
    }

    method FlushAndKeep(failAt: nat)
      modifies this`lanes, this`dropped, this`flushes
      ensures State() == Flush(old(State()), failAt)
    {
      hide *;
      StateIs();
      FlushedIs(State(), failAt);
      FlushPending(failAt);
      StateIs();
    }

    method FlushWhenDue(due: bool, failAt: nat)
      modifies this
      ensures State() == FlushIfDue(old(State()), due, failAt)
    {
      hide Flush;
      FlushedIs(State(), failAt);
      if (count >= batchSize || due) && count > 0 {
        FlushAndKeep(failAt);
        count := 0;
      }
    }

    method LeaveWhenDrained(failAt: nat)
      modifies this
      ensures State() == LeaveIfDrained(old(State()), failAt)
    {
      hide Flush;
      FlushedIs(State(), failAt);
      if !running && queue == [] {
        FlushAndKeep(failAt);
        finished := true;
      }
    }

    /** What an iteration of `run` does after its queue read. */
    method FinishRead(due: bool, failAt: nat)
      modifies this
      ensures State() == AfterRead(old(State()), due, failAt)
    {
      hide FlushIfDue, LeaveIfDrained, State;
      FlushWhenDue(due, failAt);
      LeaveWhenDrained(failAt);
    }

    /** An iteration of `run` whose queue read returned an item. */
    method TakeOne(due: bool, failAt: nat)
      requires started && !finished && queue != []
      modifies this
      ensures State() == Step(old(State()), WorkerItem(due, failAt))
    {
      hide Flush, AfterRead;
      var item := queue[0];
      queue := queue[1..];
      match item {
        case Sentinel =>
          FlushedIs(State(), failAt);
          FlushAndKeep(failAt);
          finished := true;
        case Data(kind, row) =>
          lanes := lanes.With(kind, lanes.Of(kind).(pending := lanes.Of(kind).pending + [row]));
          count := count + 1;
          FinishRead(due, failAt);
      }
    }

    /** An iteration of `run` whose queue read timed out. */
    method TakeNone(due: bool, failAt: nat)
      requires started && !finished
      modifies this
      ensures State() == Step(old(State()), WorkerTimeout(due, failAt))
    {
      hide Flush, AfterRead;
      FinishRead(due, failAt);
    }

    method Start()
      requires connected && !started
      modifies this
      ensures State() == Step(old(State()), StartWorker)
    {
      started, running := true, true;
    }

    method BeginClose()
      requires connected && !closing
      modifies this
      ensures State() == Step(old(State()), CloseBegin)
    {
      running, closing := false, true;
      lanes := MapLanes(lanes, MarkLane);
    }

    /** The put of the sentinel: it goes in as soon as the queue has room. */
    method SendSentinel() returns (sent: bool)
      requires closing && !sentinelPut
      modifies this
      ensures sent == !old(Full(State()))
      ensures State() == Step(old(State()), PutSentinel)
    {
      sent := !(queueMax > 0 && |queue| >= queueMax);
      if sent {
        queue, sentinelPut := queue + [Sentinel], true;
      }
    }

    /** The end of a close. A final commit that fails raises out of `close` and
        leaves the connection as it was: the run goes on without this step. */
    method EndClose(fails: bool)
      requires sentinelPut && finished && connected
      modifies this
      ensures State() == if fails then old(State()) else Step(old(State()), CloseEnd)
    {
      if fails {
        return;
      }
      lanes := MapLanes(lanes, CommitLane);
      connected := false;
    }
  }
}
