/** When the tick store's worker flushes, and when a row is dropped (data/tick_store.py).
  */
module FlushTiming {
  import opened StoreDrain
  import opened TickStore

  /** An iteration of the worker: a read that returned an item, or one that timed out. */
  predicate Iterates(s: System, a: Action) {
    WorkerLive(s) && ((a.WorkerItem? && s.queue != []) || a.WorkerTimeout?)
  }

  /** What the read itself does: a row goes to its kind's pending list. */
  function Read(s: System, a: Action): System {
    if a.WorkerItem? && s.queue != [] then
      var rest := s.(queue := s.queue[1..]);
      if s.queue[0].Data? then Buffer(rest, s.queue[0].kind, s.queue[0].row) else rest
    else s
  }

  predicate MeetsSentinel(s: System, a: Action) { a.WorkerItem? && s.queue != [] && s.queue[0].Sentinel? }

  predicate Due(a: Action) { (a.WorkerItem? || a.WorkerTimeout?) && a.due }

  function FailAt(a: Action): nat { if a.WorkerItem? || a.WorkerTimeout? then a.failAt else 0 }

  lemma ReadKeeps(s: System, a: Action)
    requires Inv(s) && s.connected && Iterates(s, a)
    ensures var u := Read(s, a);
      && Ledger(u.lanes, u.queue, u.dropped) && u.connected && u.count == PendingSize(u.lanes)
      && u.batchSize == s.batchSize && u.running == s.running && u.flushes == s.flushes
  {
    hide LaneInv, DropReasons, LostSize, PendingSize;
    if a.WorkerItem? {
      match s.queue[0]
      case Sentinel => SentinelKeeps(s.lanes, s.queue, s.dropped);
      case Data(k, r) => BufferKeeps(s, k, r);
    }
  }

  lemma IterationIs(s: System, a: Action)
    requires Iterates(s, a)
    ensures Step(s, a) ==
      if MeetsSentinel(s, a) then Flush(Read(s, a), FailAt(a)).(finished := true)
      else AfterRead(Read(s, a), Due(a), FailAt(a))
  {
    hide Flush, AfterRead, Buffer;
  }

  /** No row waits longer than the flush interval: an iteration whose deadline has
      passed leaves nothing pending, whatever else is in the queue. */
  lemma AgeFlushes(s: System, a: Action)
    requires Inv(s) && s.connected && Iterates(s, a) && Due(a)
    ensures PendingSize(Step(s, a).lanes) == 0
  {
    ReadKeeps(s, a);
    IterationIs(s, a);
    var u := Read(s, a);
    hide Inv, Ledger, Read, Step;
    FlushKeeps(u, FailAt(a));
    FlushIfDueKeeps(u, true, FailAt(a));
    FlushKeeps(FlushIfDue(u, true, FailAt(a)), FailAt(a));
    hide Flush, PendingSize;
  }

  /** The exact condition: an iteration that neither meets the sentinel nor leaves
      the loop flushes if and only if rows are pending after its read and either
      the deadline has passed or there are at least `batch_size` of them;
      otherwise nothing moves. */
  lemma FlushesExactly(s: System, a: Action)
    requires Inv(s) && s.connected && Iterates(s, a) && !MeetsSentinel(s, a) && !Step(s, a).finished
    ensures var u, t, n := Read(s, a), Step(s, a), PendingSize(Read(s, a).lanes);
      if n > 0 && (Due(a) || n >= s.batchSize)
      then t == Flush(u, FailAt(a)).(count := 0) && PendingSize(t.lanes) == 0
      else t == u
  {
    ReadKeeps(s, a);
    IterationIs(s, a);
    var u := Read(s, a);
    hide Inv, Ledger, Read, Step;
    FlushKeeps(u, FailAt(a));
    hide Flush, PendingSize;
  }

  /** Over every run without database errors: once an iteration past its deadline is
      over, every accepted row of every kind is in the file, except those the
      worker has not read yet. */
  lemma FlushedByAge(queueMax: nat, batchSize: nat, actions: seq<Action>, a: Action, k: Kind)
    requires (forall b :: b in actions ==> NoDatabaseError(b)) && NoDatabaseError(a)
    requires var s := Run(Fresh(queueMax, batchSize), actions); s.connected && Iterates(s, a) && Due(a)
    ensures var t := Step(Run(Fresh(queueMax, batchSize), actions), a);
      t.lanes.Of(k).accepted == t.lanes.Of(k).committed + RowsOf(t.queue, k)
  {
    OneMore(Fresh(queueMax, batchSize), actions, a);
    hide *;
    var s, all := Run(Fresh(queueMax, batchSize), actions), actions + [a];
    RunKeeps(queueMax, batchSize, actions);
    AgeFlushes(s, a);
    assert forall b :: b in all ==> NoDatabaseError(b);
    InOrderWithoutErrors(queueMax, batchSize, all, k);
    var l := Step(s, a).lanes.Of(k);
    NothingPending(Step(s, a).lanes, k);
    assert l.committed + [] == l.committed;
  }

  lemma OneMore(s: System, actions: seq<Action>, a: Action)
    ensures Run(s, actions + [a]) == Step(Run(s, actions), a)
  {
    hide Step;
    assert (actions + [a])[..|actions|] == actions;
  }

  lemma NothingPending(m: Lanes, k: Kind)
    requires PendingSize(m) == 0
    ensures m.Of(k).pending == []
  {
  }

  // ---------------------------------------------------------------- the bounded queue

  ghost predicate WithinQueue(s: System) { s.queueMax > 0 ==> |s.queue| <= s.queueMax }

  lemma {:induction false} QueueBounded(queueMax: nat, batchSize: nat, actions: seq<Action>)
    ensures var s := Run(Fresh(queueMax, batchSize), actions); s.queueMax == queueMax && WithinQueue(s)
  {
    if actions != [] {
      var n := |actions| - 1;
      QueueBounded(queueMax, batchSize, actions[..n]);
      StepWithinQueue(Run(Fresh(queueMax, batchSize), actions[..n]), actions[n]);
      hide Step;
    }
  }

  lemma StepWithinQueue(s: System, a: Action)
    requires WithinQueue(s)
    ensures WithinQueue(Step(s, a)) && Step(s, a).queueMax == s.queueMax
  {
    hide Flush, AfterRead, TakeItem, MapLanes, OfferLane;
    if a.WorkerItem? && s.queue != [] { TakeItemQueue(s, a.due, a.failAt); }
    if a.WorkerTimeout? { AfterReadQueue(s, a.due, a.failAt); }
  }

  /** A row is dropped exactly when it is offered to a bounded queue that holds
      as many items as it may; otherwise it is accepted and queued last. */
  lemma DroppedExactly(queueMax: nat, batchSize: nat, actions: seq<Action>, k: Kind, r: Row)
    ensures var s := Run(Fresh(queueMax, batchSize), actions);
      var t := Step(s, Enqueue(k, r));
      if queueMax > 0 && |s.queue| == queueMax
      then t.queue == s.queue && t.dropped == s.dropped + 1 && t.lanes.Of(k).accepted == s.lanes.Of(k).accepted
      else t.queue == s.queue + [Data(k, r)] && t.dropped == s.dropped
           && t.lanes.Of(k).accepted == s.lanes.Of(k).accepted + [r]
  {
    QueueBounded(queueMax, batchSize, actions);
    hide Run;
  }
}
