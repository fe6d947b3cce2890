/** How long a close of the tick store takes (data/tick_store.py): a bound on the
    worker's reads in every run, and what its last read is.
  */
module StoreDrain {
  import opened TickStore

  /** Items the worker has read in a run from `s`. */
  function Reads(s: System, actions: seq<Action>): nat {
    if actions == [] then 0
    else
      var front, a := actions[..|actions| - 1], actions[|actions| - 1];
      var before := Run(s, front);
      Reads(s, front) + (if a.WorkerItem? && WorkerLive(before) && before.queue != [] then 1 else 0)
  }

  function Enqueues(actions: seq<Action>): nat {
    if actions == [] then 0
    else Enqueues(actions[..|actions| - 1]) + (if actions[|actions| - 1].Enqueue? then 1 else 0)
  }

  /** What is left to read: the queue, and the sentinel while it is not yet in it. */
  function ToRead(s: System): nat { |s.queue| + (if s.sentinelPut then 0 else 1) }

  lemma FlushQueue(s: System, failAt: nat)
    ensures Flush(s, failAt).queue == s.queue && Flush(s, failAt).sentinelPut == s.sentinelPut
    ensures Flush(s, failAt).queueMax == s.queueMax
  {
    hide FlushLanes, FlushOutcome, LostSize;
  }

  lemma AfterReadQueue(s: System, due: bool, failAt: nat)
    ensures AfterRead(s, due, failAt).queue == s.queue && AfterRead(s, due, failAt).sentinelPut == s.sentinelPut
    ensures AfterRead(s, due, failAt).queueMax == s.queueMax
  {
    hide Flush, FlushIfDue;
    FlushIfDueQueue(s, due, failAt);
    FlushQueue(FlushIfDue(s, due, failAt), failAt);
  }

  lemma FlushIfDueQueue(s: System, due: bool, failAt: nat)
    ensures var t := FlushIfDue(s, due, failAt);
            t.queue == s.queue && t.sentinelPut == s.sentinelPut && t.queueMax == s.queueMax
  {
    hide Flush;
    FlushQueue(s, failAt);
  }

  lemma TakeItemQueue(s: System, due: bool, failAt: nat)
    requires s.queue != []
    ensures TakeItem(s, due, failAt).queue == s.queue[1..] && TakeItem(s, due, failAt).sentinelPut == s.sentinelPut
    ensures TakeItem(s, due, failAt).queueMax == s.queueMax
  {
    hide Flush, AfterRead;
    var rest := s.(queue := s.queue[1..]);
    FlushQueue(rest, failAt);
    if s.queue[0].Data? { AfterReadQueue(Buffer(rest, s.queue[0].kind, s.queue[0].row), due, failAt); }
  }

  lemma StepReads(s: System, a: Action)
    ensures ToRead(Step(s, a)) + (if a.WorkerItem? && WorkerLive(s) && s.queue != [] then 1 else 0) <=
            ToRead(s) + (if a.Enqueue? then 1 else 0)
  {
    hide Flush, AfterRead, TakeItem, MapLanes;
    if a.WorkerItem? && s.queue != [] { TakeItemQueue(s, a.due, a.failAt); }
    if a.WorkerTimeout? { AfterReadQueue(s, a.due, a.failAt); }
  }

  /** In every run the worker reads at most what was queued, what is offered
      meanwhile, and the sentinel: without further rows a close is drained after
      a bounded number of reads. */
  lemma {:induction false} ReadsBounded(s: System, actions: seq<Action>)
    ensures Reads(s, actions) + ToRead(Run(s, actions)) <= ToRead(s) + Enqueues(actions)
  {
    if actions != [] {
      var n := |actions| - 1;
      ReadsBounded(s, actions[..n]);
      StepReads(Run(s, actions[..n]), actions[n]);
      hide Step, ToRead;
    }
  }

  /** Once the store is stopping, the read that empties the queue is the worker's
      last, and so is a timeout on an empty queue. */
  lemma LastRead(s: System, due: bool, failAt: nat)
    requires WorkerLive(s) && !s.running
    ensures |s.queue| == 1 ==> Step(s, WorkerItem(due, failAt)).finished
    ensures s.queue == [] ==> Step(s, WorkerTimeout(due, failAt)).finished
  {
    hide FlushLanes, FlushOutcome;
  }
}
