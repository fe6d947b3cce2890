/** The end-of-day flatten (execution/alpaca_orders.py): cancel orders, wait for
    held quantity to be released, then close every position concurrently with
    selective retry.

    The broker may release held quantity at any step and may answer any request
    with an error. `asyncio.gather` is modelled by always advancing some
    unfinished close task, so a schedule (which task got which reply, in order)
    stands for one interleaving.
  */
module Flatten {
  import opened Clock
  import opened Numbers
  import opened Options
  import Sets

  /** Quantities in shares, negative for a short position; `None` is text that
      Python's `int(float(x))` rejects. */
  datatype Position = Position(symbol: string, qty: Option<real>, available: Option<real>)

  predicate Readable(p: Position) { p.qty.Some? && p.available.Some? }

  /** What a request can come back with: `AlpacaAPIError` carries the HTTP
      status and Alpaca's own code, anything else raised is `Raised`. */
  datatype Reply<+T> = Got(value: T) | ApiError(status: int, code: int) | Raised

  const FORBIDDEN: int := 403
  const INSUFFICIENT_QTY: int := 40310000
  const MAX_RETRIES: nat := 5
  const MAX_WAIT_SEC: real := 10.0
  const POLL_INTERVAL_SEC: real := 0.5
  const MAX_POLLS: nat := 21

  predicate Retriable(r: Reply<()>) {
    r == ApiError(FORBIDDEN, INSUFFICIENT_QTY)
  }

  // ---------------------------------------------------------------- multi-status

  /** One element of a multi-status body. */
  datatype Item = Dict(id: string, status: int) | NotDict

  predicate Succeeded(i: Item) { i.Dict? && i.status == 200 }

  predicate Failed(i: Item) { !Succeeded(i) }

  function Keep<T>(s: seq<T>, p: T -> bool): seq<T> {
    if s == [] then []
    else Keep(s[..|s| - 1], p) + (if p(s[|s| - 1]) then [s[|s| - 1]] else [])
  }

  lemma KeepAppend<T>(s: seq<T>, x: T, p: T -> bool)
    ensures Keep(s + [x], p) == if p(x) then Keep(s, p) + [x] else Keep(s, p)
  {
    assert (s + [x])[..|s|] == s;
  }

  /** `_split_multistatus`; a body that is not a list is `None`. */
  method SplitMultistatus(body: Option<seq<Item>>) returns (ok: seq<Item>, bad: seq<Item>)
    ensures body.None? ==> ok == [] && bad == []
    ensures body.Some? ==> ok == Keep(body.value, Succeeded) && bad == Keep(body.value, Failed)
  {
    ok, bad := [], [];
    if body.Some? {
      var items := body.value;
      SplitNothing();
      hide *;
      assert items[..0] == [];
      for n := 0 to |items|
        invariant SplitInto(items[..n], ok, bad)
      {
        SplitStep(items[..n], ok, bad, items[n]);
        assert items[..n + 1] == items[..n] + [items[n]];
        if Succeeded(items[n]) {
          ok := ok + [items[n]];
        } else {
          bad := bad + [items[n]];
        }
      }
      assert items[..|items|] == items;
      SplitIs(items, ok, bad);
    }
  }

  ghost predicate SplitInto(items: seq<Item>, ok: seq<Item>, bad: seq<Item>) {
    ok == Keep(items, Succeeded) && bad == Keep(items, Failed)
  }

  lemma SplitNothing()
    ensures SplitInto([], [], [])
  {
  }

  lemma SplitIs(items: seq<Item>, ok: seq<Item>, bad: seq<Item>)
    requires SplitInto(items, ok, bad)
    ensures ok == Keep(items, Succeeded) && bad == Keep(items, Failed)
  {
  }

  lemma SplitStep(items: seq<Item>, ok: seq<Item>, bad: seq<Item>, item: Item)
    requires SplitInto(items, ok, bad)
    ensures if Succeeded(item) then SplitInto(items + [item], ok + [item], bad)
            else SplitInto(items + [item], ok, bad + [item])
  {
    KeepAppend(items, item, Succeeded);
    KeepAppend(items, item, Failed);
    hide Keep;
  }

  /** No element is dropped or duplicated by the split. */
  lemma {:induction false} SplitPartitions(items: seq<Item>)
    ensures multiset(Keep(items, Succeeded)) + multiset(Keep(items, Failed)) == multiset(items)
  {
    if items != [] {
      var n := |items| - 1;
      SplitPartitions(items[..n]);
      assert items == items[..n] + [items[n]];
      KeepAppend(items[..n], items[n], Succeeded);
      KeepAppend(items[..n], items[n], Failed);
      hide Keep;
    }
  }

  /** What the documentation calls a success: status 200 or 207. */
  predicate DocumentedSuccess(i: Item) { i.Dict? && i.status in {200, 207} }

  predicate DocumentedFailure(i: Item) { !DocumentedSuccess(i) }

  predicate MultiStatus(i: Item) { i.Dict? && i.status == 207 }

  lemma {:induction false} SameKept<T>(s: seq<T>, p: T -> bool, q: T -> bool)
    requires forall x :: x in s ==> p(x) == q(x)
    ensures Keep(s, p) == Keep(s, q)
  {
    if s != [] {
      var n := |s| - 1;
      assert s == s[..n] + [s[n]];
      SameKept(s[..n], p, q);
    }
  }

  /** The split is the documented one exactly when no element has status 207. */
  lemma SplitAsDocumented(items: seq<Item>)
    ensures (&& Keep(items, Succeeded) == Keep(items, DocumentedSuccess)
             && Keep(items, Failed) == Keep(items, DocumentedFailure)) <==>
            (forall i :: i in items ==> !MultiStatus(i))
  {
    KeptHolds(items, Succeeded);
    KeptHolds(items, DocumentedSuccess);
    if forall i :: i in items ==> !MultiStatus(i) {
      SameKept(items, Succeeded, DocumentedSuccess);
      SameKept(items, Failed, DocumentedFailure);
    } else {
      var i :| i in items && MultiStatus(i);
      assert i in Keep(items, DocumentedSuccess) && i !in Keep(items, Succeeded);
    }
  }

  /** An element with status 207 is reported as failed. */
  lemma MultiStatusFails()
    ensures var items := [Dict("x", 207)];
            Keep(items, Failed) == items == Keep(items, DocumentedSuccess)
  {
    var items := [Dict("x", 207)];
    assert items[..0] == [];
    KeepAppend([], items[0], Failed);
    KeepAppend([], items[0], DocumentedSuccess);
    assert [] + items == items;
  }

  // ---------------------------------------------------------------- one close

  datatype CloseResult = CloseResult(symbol: string, ok: bool, retries: nat, error: Option<Reply<()>>)

  /** `_close_position_with_retry`, suspended before its attempt number `attempt`, or over. */
  datatype CloseTask = Trying(symbol: string, attempt: nat) | Done(result: CloseResult)

  function Advance(t: CloseTask, r: Reply<()>): CloseTask
    requires t.Trying?
  {
    if r.Got? then Done(CloseResult(t.symbol, true, t.attempt, None))
    else if !Retriable(r) then Done(CloseResult(t.symbol, false, t.attempt, Some(r)))
    else if t.attempt + 1 < MAX_RETRIES then Trying(t.symbol, t.attempt + 1)
    else Done(CloseResult(t.symbol, false, MAX_RETRIES, Some(r)))
  }

  /** The task after these replies; replies after its end never reach it. */
  function TaskAfter(symbol: string, replies: seq<Reply<()>>): CloseTask {
    if replies == [] then Trying(symbol, 0)
    else
      var t := TaskAfter(symbol, replies[..|replies| - 1]);
      if t.Trying? then Advance(t, replies[|replies| - 1]) else t
  }

  ghost predicate AllRetriable(replies: seq<Reply<()>>) {
    forall i :: 0 <= i < |replies| ==> Retriable(replies[i])
  }

  /** The history a close task can have had: every reply but the last asked for
      a retry, and no request follows a final reply. */
  ghost predicate RetryHistory(replies: seq<Reply<()>>) {
    && |replies| <= MAX_RETRIES
    && (replies != [] ==> AllRetriable(replies[..|replies| - 1]))
  }

  /** A task is still trying exactly when it has had fewer than five replies,
      all asking for a retry; it has closed its position exactly when such a
      run of at most four was followed by an acceptance. */
  lemma {:induction false} TaskOutcome(symbol: string, replies: seq<Reply<()>>)
    requires RetryHistory(replies)
    ensures var t := TaskAfter(symbol, replies);
            && (t.Trying? <==> AllRetriable(replies) && |replies| < MAX_RETRIES)
            && (t.Trying? ==> t == Trying(symbol, |replies|))
            && (t.Done? ==> && replies != []
                            && t.result.symbol == symbol
                            && (t.result.ok <==> replies[|replies| - 1].Got?)
                            && t.result.retries == (if AllRetriable(replies) then MAX_RETRIES else |replies| - 1)
                            && t.result.error == (if t.result.ok then None else Some(replies[|replies| - 1])))
  {
    if replies != [] {
      var n := |replies| - 1;
      TaskOutcome(symbol, replies[..n]);
      assert AllRetriable(replies) <==> AllRetriable(replies[..n]) && Retriable(replies[n]);
    }
  }

  // ---------------------------------------------------------------- all closes

  datatype Delivery = Delivery(task: nat, reply: Reply<()>)

  /** The replies delivered to one task, in order. */
  function RepliesTo(schedule: seq<Delivery>, i: nat): seq<Reply<()>> {
    if schedule == [] then []
    else
      var last := schedule[|schedule| - 1];
      RepliesTo(schedule[..|schedule| - 1], i) + (if last.task == i then [last.reply] else [])
  }

  function TaskAt(listed: seq<Position>, schedule: seq<Delivery>, i: nat): CloseTask
    requires i < |listed|
  {
    TaskAfter(listed[i].symbol, RepliesTo(schedule, i))
  }

  function Tasks(listed: seq<Position>, schedule: seq<Delivery>): seq<CloseTask> {
    seq(|listed|, i requires 0 <= i < |listed| => TaskAt(listed, schedule, i))
  }

  /** Every delivery went to a task that was waiting for it. */
  ghost predicate Sensible(listed: seq<Position>, schedule: seq<Delivery>) {
    schedule == [] ||
    (var n := |schedule| - 1;
     && Sensible(listed, schedule[..n])
     && schedule[n].task < |listed|
     && TaskAt(listed, schedule[..n], schedule[n].task).Trying?)
  }

  /** The requests a schedule sent to the broker. */
  function Requests(listed: seq<Position>, schedule: seq<Delivery>): seq<(string, Reply<()>)>
    requires forall d :: d in schedule ==> d.task < |listed|
  {
    seq(|schedule|, n requires 0 <= n < |schedule| =>
      assert schedule[n] in schedule; (listed[schedule[n].task].symbol, schedule[n].reply))
  }

  lemma {:induction false} SensibleTasks(listed: seq<Position>, schedule: seq<Delivery>)
    requires Sensible(listed, schedule)
    ensures forall d :: d in schedule ==> d.task < |listed|
  {
    if schedule != [] {
      var n := |schedule| - 1;
      SensibleTasks(listed, schedule[..n]);
      assert schedule == schedule[..n] + [schedule[n]];
    }
  }

  lemma {:induction false} RetryHistories(listed: seq<Position>, schedule: seq<Delivery>, i: nat)
    requires Sensible(listed, schedule) && i < |listed|
    ensures RetryHistory(RepliesTo(schedule, i))
  {
    if schedule != [] {
      var n := |schedule| - 1;
      RetryHistories(listed, schedule[..n], i);
      if schedule[n].task == i {
        var before := RepliesTo(schedule[..n], i);
        TaskOutcome(listed[i].symbol, before);
        assert (before + [schedule[n].reply])[..|before|] == before;
      }
    }
  }

  /** In every interleaving each position is asked to close at most five times,
      and again only after HTTP 403 with Alpaca's code 40310000. */
  lemma AttemptsBounded(listed: seq<Position>, schedule: seq<Delivery>, i: nat)
    requires Sensible(listed, schedule) && i < |listed|
    ensures RetryHistory(RepliesTo(schedule, i))
    ensures var replies := RepliesTo(schedule, i);
            && |replies| <= 5
            && forall j :: 0 <= j < |replies| - 1 ==> replies[j] == ApiError(403, 40310000)
  {
    RetryHistories(listed, schedule, i);
    var replies := RepliesTo(schedule, i);
    forall j | 0 <= j < |replies| - 1 ensures replies[j] == ApiError(403, 40310000) {
      assert Retriable(replies[..|replies| - 1][j]);
    }
  }

  /** The other half, reply by reply: any other reply ends the close, as done if it
      was an acceptance and as that error if not, with the retries made so far;
      that very refusal leaves it trying, unless it was the fifth. */
  lemma ReplyDecides(listed: seq<Position>, schedule: seq<Delivery>, i: nat, j: nat)
    requires Sensible(listed, schedule) && i < |listed| && j < |RepliesTo(schedule, i)|
    ensures var replies := RepliesTo(schedule, i);
            var symbol, last, t := listed[i].symbol, j == |replies| - 1, TaskAt(listed, schedule, i);
            if replies[j].Got? then last && t == Done(CloseResult(symbol, true, j, None))
            else if replies[j] != ApiError(403, 40310000) then
              last && t == Done(CloseResult(symbol, false, j, Some(replies[j])))
            else last ==>
              t == if j < 4 then Trying(symbol, j + 1) else Done(CloseResult(symbol, false, 5, Some(replies[j])))
  {
    AttemptsBounded(listed, schedule, i);
    var replies := RepliesTo(schedule, i);
    TaskOutcome(listed[i].symbol, replies);
    hide Sensible, RepliesTo;
    if j == |replies| - 1 {
      LastReply(replies);
      assert TaskAt(listed, schedule, i) == TaskAfter(listed[i].symbol, replies);
    }
  }

  lemma LastReply(replies: seq<Reply<()>>)
    requires RetryHistory(replies) && replies != []
    ensures AllRetriable(replies) <==> replies[|replies| - 1] == ApiError(403, 40310000)
  {
    var n := |replies| - 1;
    assert forall k :: 0 <= k < n ==> Retriable(replies[..n][k]);
    assert forall k :: 0 <= k < n ==> replies[..n][k] == replies[k];
  }

  // ---------------------------------------------------------------- the broker

  /** A body that lists every open position once, in any order. */
  ghost predicate Lists(body: seq<Position>, open: map<string, Position>) {
    && |body| == |open|
    && (forall p :: p in body ==> p.symbol in open && open[p.symbol] == p)
    && (forall s :: s in open ==> open[s] in body)
  }

  class Broker {
    var open: map<string, Position>
    ghost var requests: seq<(string, Reply<()>)>    // every position DELETE and its reply

    ghost predicate Valid()
      reads this`open
    {
      forall s :: s in open ==> open[s].symbol == s
    }

    constructor (open: map<string, Position>)
      requires forall s :: s in open ==> open[s].symbol == s
      ensures Valid() && this.open == open && requests == []
    {
      this.open, requests := open, [];
    }

    /** Fills, releases and cancels that happen on the broker's side: positions
        may change or disappear, none appears. */
    method Drift()
      requires Valid()
      modifies this`open
      ensures Valid() && open.Keys <= old(open.Keys)
    {
      var gone: set<string> := *;
      open := open - gone;
      var changed: map<string, Position> := *;
      open := map s | s in open :: if s in changed then changed[s].(symbol := s) else open[s];
    }

    method CancelOrders() returns (r: Reply<Option<seq<Item>>>)
      requires Valid()
      modifies this`open
      ensures Valid() && open.Keys <= old(open.Keys)
    {
      Drift();
      r := *;
    }

    /** GET /v2/positions: fails, or tells what is open at that moment. */
    method GetPositions() returns (r: Reply<seq<Position>>)
      requires Valid()
      modifies this`open
      ensures Valid() && open.Keys <= old(open.Keys)
      ensures r.Got? ==> Lists(r.value, open)
    {
      Drift();
      r := *;
      if r.Got? {
        var body := Body();
        r := Got(body);
      }
    }

    method Body() returns (body: seq<Position>)
      requires Valid()
      ensures Lists(body, open)
    {
      body := [];
      var rest := open.Keys;
      while rest != {}
        invariant rest <= open.Keys && |body| + |rest| == |open|
        invariant forall p :: p in body ==> p.symbol in open && open[p.symbol] == p
        invariant forall s :: s in open ==> s in rest || open[s] in body
        decreases |rest|
      {
        var s := Sets.Pick(rest);
        body := body + [open[s]];
        rest := rest - {s};
      }
    }

    /** DELETE /v2/positions/{symbol}: any reply is possible at any time; one
        that accepts means the position is gone. */
    method ClosePosition(symbol: string) returns (r: Reply<()>)
      requires Valid()
      modifies this
      ensures Valid() && requests == old(requests) + [(symbol, r)]
      ensures open.Keys <= old(open.Keys)
      ensures r.Got? ==> symbol !in open
    {
      Drift();
      r := *;
      if r.Got? {
        open := open - {symbol};
      }
      requests := requests + [(symbol, r)];
    }
  }

  // ---------------------------------------------------------------- waiting for release

  /** The poll's test, once both quantities have been read. */
  predicate HeldBack(qty: real, available: real) { Truncate(available) < Truncate(qty) }

  predicate StillHeld(p: Position) { Readable(p) && HeldBack(p.qty.value, p.available.value) }

  predicate Released(p: Position) { !StillHeld(p) }

  predicate AllReadable(body: seq<Position>) { forall p :: p in body ==> Readable(p) }

  /** A body on which the poll's test raises. */
  predicate Unreadable(r: Reply<seq<Position>>) { r.Got? && !AllReadable(r.value) }

  /** The poll is documented to wait until `qty_available == qty`. With
      `available` between zero and `qty`, its test tells a held position exactly
      when nothing is held or it is a long of which whole shares are held. */
  lemma ReleaseTest(qty: real, available: real)
    requires 0.0 <= available <= qty || qty <= available <= 0.0
    ensures (HeldBack(qty, available) <==> available != qty) <==>
            (available == qty || (qty > 0.0 && available.Floor < qty.Floor))
  {
  }

  /** A short of 100 shares of which only 40 can be traded counts as released. */
  lemma HeldShortMissed()
    ensures Released(Position("ES", Some(-100.0), Some(-40.0)))
  {
  }

  /** So do 1.9 shares of which 0.9 are held: the part below a share is cut off. */
  lemma HeldFractionMissed()
    ensures Released(Position("ES", Some(1.9), Some(1.0)))
    ensures Released(Position("ES", Some(0.5), Some(0.0)))
  {
  }

  /** Polls until nothing is held, the wait is over or a poll fails; `polls` is
      how often the positions were fetched and `last` what the last poll got. */
  method WaitForRelease(broker: Broker, clock: MonotonicClock)
    returns (released: seq<Position>, stillHeld: seq<Position>, raised: bool, polls: nat,
             ghost last: Reply<seq<Position>>)
    requires broker.Valid()
    modifies broker`open, clock
    ensures broker.Valid() && broker.open.Keys <= old(broker.open.Keys)
    ensures 1 <= polls <= 21
    ensures raised <==> Unreadable(last)
    ensures !raised && last.Got? ==> stillHeld == Keep(last.value, StillHeld) && released == Keep(last.value, Released)
    ensures last.Got? || (released == [] && stillHeld == [])
    ensures !raised && stillHeld != [] ==> clock.now >= old(clock.now) + 10.0
  {
    var start := clock.Monotonic();
    polls := 0;
    while true
      invariant polls < MAX_POLLS
      invariant clock.now >= start + POLL_INTERVAL_SEC * polls as real && start >= old(clock.now)
      invariant broker.Valid() && broker.open.Keys <= old(broker.open.Keys)
      decreases MAX_POLLS - polls
    {
      var reply := broker.GetPositions();
      last := reply;
      polls := polls + 1;
      if !reply.Got? {
        return [], [], false, polls, last;
      }
      var positions := reply.value;
      if !AllReadable(positions) {
        return [], [], true, polls, last;
      }
      stillHeld := Keep(positions, StillHeld);
      var now := clock.Monotonic();
      var elapsed := now - start;
      if stillHeld == [] {
        NoneKept(positions, StillHeld);
        AllKept(positions, Released);
        return positions, [], false, polls, last;
      }
      if elapsed >= MAX_WAIT_SEC {
        return Keep(positions, Released), stillHeld, false, polls, last;
      }
      clock.Sleep(POLL_INTERVAL_SEC);
    }
  }

  lemma {:induction false} KeptHolds<T>(s: seq<T>, p: T -> bool)
    ensures forall x :: x in Keep(s, p) <==> x in s && p(x)
  {
    if s != [] {
      KeptHolds(s[..|s| - 1], p);
      assert s == s[..|s| - 1] + [s[|s| - 1]];
    }
  }

  lemma NoneKept<T>(s: seq<T>, p: T -> bool)
    requires Keep(s, p) == []
    ensures forall x :: x in s ==> !p(x)
  {
    KeptHolds(s, p);
  }

  lemma {:induction false} AllKept<T>(s: seq<T>, p: T -> bool)
    requires forall x :: x in s ==> p(x)
    ensures Keep(s, p) == s
  {
    if s != [] {
      AllKept(s[..|s| - 1], p);
      assert s == s[..|s| - 1] + [s[|s| - 1]];
    }
  }

  // ---------------------------------------------------------------- close_all_positions

  datatype FlattenError =
    | OrderCancelFailed(item: Item)
    | CancelOrdersFailed
    | PositionCloseFailed(result: CloseResult)
    | ClosePositionsFailed

  datatype FlattenResult = FlattenResult(cancelled: seq<Item>, closed: seq<CloseResult>, errors: seq<FlattenError>)

  function CloseResults(listed: seq<Position>, schedule: seq<Delivery>): seq<CloseResult>
    requires forall i :: 0 <= i < |listed| ==> TaskAt(listed, schedule, i).Done?
  {
    seq(|listed|, i requires 0 <= i < |listed| => TaskAt(listed, schedule, i).result)
  }

  predicate Closed(r: CloseResult) { r.ok }

  predicate NotClosed(r: CloseResult) { !r.ok }

  function CloseErrors(rs: seq<CloseResult>): seq<FlattenError> {
    seq(|rs|, i requires 0 <= i < |rs| => PositionCloseFailed(rs[i]))
  }

  function CancelErrors(items: seq<Item>): seq<FlattenError> {
    seq(|items|, i requires 0 <= i < |items| => OrderCancelFailed(items[i]))
  }

  ghost predicate AllDone(listed: seq<Position>, schedule: seq<Delivery>) {
    Sensible(listed, schedule) && forall i :: 0 <= i < |listed| ==> TaskAt(listed, schedule, i).Done?
  }

  /** Attempts the tasks can still make. */
  function Effort(tasks: seq<CloseTask>): nat {
    if tasks == [] then 0
    else
      var t := tasks[|tasks| - 1];
      Effort(tasks[..|tasks| - 1]) + (if t.Trying? && t.attempt < MAX_RETRIES then MAX_RETRIES - t.attempt else 0)
  }

  lemma {:induction false} EffortDrops(tasks: seq<CloseTask>, i: nat, t: CloseTask)
    requires i < |tasks| && tasks[i].Trying? && tasks[i].attempt < MAX_RETRIES
    requires t.Trying? ==> t.attempt > tasks[i].attempt
    ensures Effort(tasks[i := t]) < Effort(tasks)
  {
    var n := |tasks| - 1;
    if i == n {
      assert tasks[i := t][..n] == tasks[..n];
    } else {
      EffortDrops(tasks[..n], i, t);
      assert tasks[i := t][..n] == tasks[..n][i := t];
    }
  }

  lemma DeliverOne(listed: seq<Position>, schedule: seq<Delivery>, tasks: seq<CloseTask>, i: nat, r: Reply<()>)
    requires Sensible(listed, schedule) && tasks == Tasks(listed, schedule)
    requires i < |tasks| && tasks[i].Trying?
    ensures var next := schedule + [Delivery(i, r)];
            && Sensible(listed, next)
            && tasks[i := Advance(tasks[i], r)] == Tasks(listed, next)
  {
    var next := schedule + [Delivery(i, r)];
    assert next[..|schedule|] == schedule;
    var replies := RepliesTo(schedule, i);
    assert (replies + [r])[..|replies|] == replies;
    forall j | 0 <= j < |listed| ensures tasks[i := Advance(tasks[i], r)][j] == TaskAt(listed, next, j) {
      assert RepliesTo(next, j) == if j == i then replies + [r] else RepliesTo(schedule, j);
    }
  }

  lemma TryingAttempts(listed: seq<Position>, schedule: seq<Delivery>, i: nat)
    requires Sensible(listed, schedule) && i < |listed| && TaskAt(listed, schedule, i).Trying?
    ensures TaskAt(listed, schedule, i).symbol == listed[i].symbol
    ensures TaskAt(listed, schedule, i).attempt < MAX_RETRIES
  {
    AttemptsBounded(listed, schedule, i);
    TaskOutcome(listed[i].symbol, RepliesTo(schedule, i));
  }

  /** Where the gathered closes stand, given which positions are open. */
  ghost predicate Progress(listed: seq<Position>, schedule: seq<Delivery>, tasks: seq<CloseTask>, open: set<string>) {
    && Sensible(listed, schedule) && tasks == Tasks(listed, schedule)
    && (forall d :: d in schedule ==> d.task < |listed|)
    && (forall i :: 0 <= i < |tasks| && tasks[i].Done? && tasks[i].result.ok ==> listed[i].symbol !in open)
  }

  lemma ProgressStep(listed: seq<Position>, schedule: seq<Delivery>, tasks: seq<CloseTask>, i: nat, r: Reply<()>,
                     before: set<string>, after: set<string>)
    requires Progress(listed, schedule, tasks, before)
    requires i < |tasks| && tasks[i].Trying? && after <= before
    requires r.Got? ==> tasks[i].symbol !in after
    ensures |tasks| == |listed| && tasks[i].symbol == listed[i].symbol
    ensures var next := tasks[i := Advance(tasks[i], r)];
            && Progress(listed, schedule + [Delivery(i, r)], next, after)
            && Effort(next) < Effort(tasks)
  {
    hide Effort, Sensible;
    TryingAttempts(listed, schedule, i);
    DeliverOne(listed, schedule, tasks, i, r);
    EffortDrops(tasks, i, Advance(tasks[i], r));
  }

  /** The gathered close tasks, resumed in any order. */
  method CloseConcurrently(broker: Broker, listed: seq<Position>)
    returns (results: seq<CloseResult>, ghost schedule: seq<Delivery>)
    requires broker.Valid()
    modifies broker
    ensures broker.Valid()
    ensures AllDone(listed, schedule) && results == CloseResults(listed, schedule)
    ensures forall d :: d in schedule ==> d.task < |listed|
    ensures broker.requests == old(broker.requests) + Requests(listed, schedule)
    ensures broker.open.Keys <= old(broker.open.Keys)
    ensures forall i :: 0 <= i < |listed| && results[i].ok ==> listed[i].symbol !in broker.open
  {
    hide *;
    var tasks := seq(|listed|, i requires 0 <= i < |listed| => Trying(listed[i].symbol, 0));
    schedule := [];
    ProgressStarts(listed, tasks, broker.open.Keys);
    RequestsNone(listed);
    while exists i :: 0 <= i < |tasks| && tasks[i].Trying?
      invariant Progress(listed, schedule, tasks, broker.open.Keys)
      invariant forall d :: d in schedule ==> d.task < |listed|
      invariant broker.requests == old(broker.requests) + Requests(listed, schedule)
      invariant broker.Valid() && broker.open.Keys <= old(broker.open.Keys)
      decreases Effort(tasks)
    {
      var i :| 0 <= i < |tasks| && tasks[i].Trying?;
      ghost var before := broker.open.Keys;
      ghost var sent := broker.requests;
      var reply := broker.ClosePosition(tasks[i].symbol);
      ProgressStep(listed, schedule, tasks, i, reply, before, broker.open.Keys);
      RequestsAppend(listed, schedule, Delivery(i, reply));
      tasks := tasks[i := Advance(tasks[i], reply)];
      schedule := schedule + [Delivery(i, reply)];
    }
    ProgressEnds(listed, schedule, tasks, broker.open.Keys);
    results := ResultsOf(tasks);
  }

  function ResultsOf(tasks: seq<CloseTask>): seq<CloseResult>
    requires forall i :: 0 <= i < |tasks| ==> tasks[i].Done?
  {
    seq(|tasks|, i requires 0 <= i < |tasks| => tasks[i].result)
  }

  lemma ProgressStarts(listed: seq<Position>, tasks: seq<CloseTask>, open: set<string>)
    requires |tasks| == |listed| && forall i :: 0 <= i < |listed| ==> tasks[i] == Trying(listed[i].symbol, 0)
    ensures Progress(listed, [], tasks, open)
  {
    assert tasks == Tasks(listed, []);
  }

  lemma ProgressEnds(listed: seq<Position>, schedule: seq<Delivery>, tasks: seq<CloseTask>, open: set<string>)
    requires Progress(listed, schedule, tasks, open) && forall i :: 0 <= i < |tasks| ==> tasks[i].Done?
    ensures AllDone(listed, schedule) && ResultsOf(tasks) == CloseResults(listed, schedule)
    ensures |ResultsOf(tasks)| == |listed|
    ensures forall i :: 0 <= i < |listed| && ResultsOf(tasks)[i].ok ==> listed[i].symbol !in open
  {
    hide Sensible, TaskAt;
    TasksAre(listed, schedule);
  }

  lemma RequestsNone(listed: seq<Position>)
    ensures Requests(listed, []) == []
  {
  }

  lemma TasksAre(listed: seq<Position>, schedule: seq<Delivery>)
    ensures |Tasks(listed, schedule)| == |listed|
    ensures forall i :: 0 <= i < |listed| ==> Tasks(listed, schedule)[i] == TaskAt(listed, schedule, i)
  {
  }

  lemma RequestsAppend(listed: seq<Position>, schedule: seq<Delivery>, d: Delivery)
    requires (forall e :: e in schedule ==> e.task < |listed|) && d.task < |listed|
    ensures forall e :: e in schedule + [d] ==> e.task < |listed|
    ensures Requests(listed, schedule + [d]) == Requests(listed, schedule) + [(listed[d.task].symbol, d.reply)]
  {
  }

  lemma {:induction false} KeptCounts(rs: seq<CloseResult>)
    ensures |Keep(rs, Closed)| + |Keep(rs, NotClosed)| == |rs|
    ensures Keep(rs, NotClosed) == [] ==> forall r :: r in rs ==> r.ok
  {
    KeptHolds(rs, NotClosed);
    if rs != [] { KeptCounts(rs[..|rs| - 1]); }
  }

  /** What the reported lists mean: every listed position is in exactly one of
      them, under its own symbol, and in the closed one if and only if the last
      of its at most five requests was accepted. */
  lemma ReportComplete(listed: seq<Position>, schedule: seq<Delivery>)
    requires AllDone(listed, schedule)
    ensures var rs := CloseResults(listed, schedule);
            && |Keep(rs, Closed)| + |Keep(rs, NotClosed)| == |listed|
            && forall i :: 0 <= i < |listed| ==>
                 var replies := RepliesTo(schedule, i);
                 && rs[i].symbol == listed[i].symbol
                 && replies != [] && RetryHistory(replies)
                 && (rs[i] in Keep(rs, Closed) <==> replies[|replies| - 1].Got?)
                 && (rs[i] in Keep(rs, NotClosed) <==> !replies[|replies| - 1].Got?)
  {
    var rs := CloseResults(listed, schedule);
    KeptCounts(rs);
    KeptHolds(rs, Closed);
    KeptHolds(rs, NotClosed);
    hide Keep, AllDone, RetryHistory;
    forall i | 0 <= i < |listed|
      ensures var replies := RepliesTo(schedule, i);
              && rs[i].symbol == listed[i].symbol
              && replies != [] && RetryHistory(replies)
              && (rs[i].ok <==> replies[|replies| - 1].Got?)
              && rs[i] in rs
    {
      ResultIs(listed, schedule, i);
    }
  }

  lemma ResultIs(listed: seq<Position>, schedule: seq<Delivery>, i: nat)
    requires AllDone(listed, schedule) && i < |listed|
    ensures var r, replies := CloseResults(listed, schedule)[i], RepliesTo(schedule, i);
            && r.symbol == listed[i].symbol
            && replies != [] && RetryHistory(replies)
            && (r.ok <==> replies[|replies| - 1].Got?)
  {
    hide Sensible, RepliesTo;
    AttemptsBounded(listed, schedule, i);
    TaskOutcome(listed[i].symbol, RepliesTo(schedule, i));
  }

  /** The broker answers a request for the position with 403/40310000 until
      `held` requests have been made, and accepts afterwards. */
  ghost predicate HeldFor(replies: seq<Reply<()>>, held: nat) {
    forall j :: 0 <= j < |replies| ==> replies[j] == if j < held then ApiError(FORBIDDEN, INSUFFICIENT_QTY) else Got(())
  }

  lemma ReleasedTask(listed: seq<Position>, schedule: seq<Delivery>, i: nat, held: nat)
    requires AllDone(listed, schedule) && i < |listed| && HeldFor(RepliesTo(schedule, i), held)
    ensures TaskAt(listed, schedule, i).result.ok <==> held < MAX_RETRIES
    ensures |RepliesTo(schedule, i)| == if held < MAX_RETRIES then held + 1 else MAX_RETRIES
  {
    var replies := RepliesTo(schedule, i);
    var n := |replies| - 1;
    AttemptsBounded(listed, schedule, i);
    TaskOutcome(listed[i].symbol, replies);
    if n > 0 { assert Retriable(replies[..n][n - 1]) && replies[..n][n - 1] == replies[n - 1]; }
  }

  /** Retrying is enough exactly when every hold is released before the fifth
      request for its position: then, and only then, no close is an error. */
  lemma ReleasedInTime(listed: seq<Position>, schedule: seq<Delivery>, held: seq<nat>)
    requires AllDone(listed, schedule) && |held| == |listed|
    requires forall i :: 0 <= i < |listed| ==> HeldFor(RepliesTo(schedule, i), held[i])
    ensures CloseErrors(Keep(CloseResults(listed, schedule), NotClosed)) == [] <==>
            forall i :: 0 <= i < |held| ==> held[i] < MAX_RETRIES
  {
    var rs := CloseResults(listed, schedule);
    KeptHolds(rs, NotClosed);
    forall i | 0 <= i < |listed| ensures rs[i].ok <==> held[i] < MAX_RETRIES {
      ReleasedTask(listed, schedule, i, held[i]);
    }
    hide AllDone, HeldFor, CloseResults;
    if Keep(rs, NotClosed) != [] {
      assert Keep(rs, NotClosed)[0] in rs;
    }
    assert forall i :: 0 <= i < |rs| ==> rs[i] in rs;
  }

  /** What `close_all_positions` got back: the reply to the cancel, the last poll
      of the wait, the final fetch and the interleaving of the closes. */
  datatype Exchange = Exchange(
    cancel: Option<Reply<Option<seq<Item>>>>, lastPoll: Option<Reply<seq<Position>>>,
    fetched: Option<Reply<seq<Position>>>, schedule: seq<Delivery>)

  function CancelItems(cancel: Option<Reply<Option<seq<Item>>>>): seq<Item> {
    if cancel.Some? && cancel.value.Got? && cancel.value.value.Some? then cancel.value.value.value else []
  }

  function Cancelled(cancel: Option<Reply<Option<seq<Item>>>>): seq<Item> { Keep(CancelItems(cancel), Succeeded) }

  function CancelPhaseErrors(cancel: Option<Reply<Option<seq<Item>>>>): seq<FlattenError> {
    if cancel.Some? && !cancel.value.Got? then [CancelOrdersFailed] else CancelErrors(Keep(CancelItems(cancel), Failed))
  }

  function Listed(x: Exchange): seq<Position> {
    if x.fetched.Some? && x.fetched.value.Got? then x.fetched.value.value else []
  }

  /** The wait is the one part outside a try block: its test raises on a quantity
      it cannot read, and nothing is closed. */
  predicate Raises(x: Exchange) { x.lastPoll.Some? && Unreadable(x.lastPoll.value) }

  /** An exchange the code can have. */
  ghost predicate Coherent(x: Exchange) {
    && (x.lastPoll.Some? <==> Cancelled(x.cancel) != [])
    && (x.fetched.None? <==> Raises(x))
    && AllDone(Listed(x), x.schedule)
  }

  ghost function ReportOf(x: Exchange): FlattenResult
    requires Coherent(x) && !Raises(x)
  {
    var rs := CloseResults(Listed(x), x.schedule);
    FlattenResult(
      Cancelled(x.cancel), Keep(rs, Closed),
      CancelPhaseErrors(x.cancel) +
      (if x.fetched.value.Got? then CloseErrors(Keep(rs, NotClosed)) else [ClosePositionsFailed]))
  }

  lemma NothingListed()
    ensures AllDone([], []) && CloseResults([], []) == [] && Requests([], []) == []
  {
  }

  lemma NothingCancelled()
    ensures Cancelled(None) == [] && CancelPhaseErrors(None) == []
  {
  }

  /** The cancel phase of `close_all_positions`. */
  method CancelAndWait(broker: Broker, clock: MonotonicClock)
    returns (cancelled: seq<Item>, errors: seq<FlattenError>, raised: bool,
             ghost cancel: Option<Reply<Option<seq<Item>>>>, ghost lastPoll: Option<Reply<seq<Position>>>)
    requires broker.Valid()
    modifies broker`open, clock
    ensures broker.Valid() && broker.open.Keys <= old(broker.open.Keys)
    ensures cancel.Some? && cancelled == Cancelled(cancel) && errors == CancelPhaseErrors(cancel)
    ensures lastPoll.Some? <==> cancelled != []
    ensures raised <==> lastPoll.Some? && Unreadable(lastPoll.value)
  {
    cancelled, errors, raised := [], [], false;
    var reply := broker.CancelOrders();
    cancel, lastPoll := Some(reply), None;
    if reply.Got? {
      var bad;
      cancelled, bad := SplitMultistatus(reply.value);
      errors := CancelErrors(bad);
    } else {
      errors := [CancelOrdersFailed];
    }
    if cancelled != [] {
      var released, stillHeld, failed, polls, last := WaitForRelease(broker, clock);
      raised, lastPoll := failed, Some(last);
    }
  }

  /** `close_all_positions`; `None` is an exception. Without errors in the report
      nothing is left open at the broker. */
  method CloseAllPositions(broker: Broker, clock: MonotonicClock, cancelOrders: bool)
    returns (result: Option<FlattenResult>, ghost x: Exchange)
    requires broker.Valid()
    modifies broker, clock
    ensures broker.Valid() && broker.open.Keys <= old(broker.open.Keys)
    ensures Coherent(x) && (x.cancel.Some? <==> cancelOrders)
    ensures result == if Raises(x) then None else Some(ReportOf(x))
    ensures forall d :: d in x.schedule ==> d.task < |Listed(x)|
    ensures broker.requests == old(broker.requests) + Requests(Listed(x), x.schedule)
    ensures result.Some? && result.value.errors == [] ==> broker.open == map[]
  {
    hide Cancelled, CancelPhaseErrors, AllDone, Lists, CloseErrors, Requests, Unreadable;
    var cancelled: seq<Item>, errors: seq<FlattenError>, raised := [], [], false;
    ghost var cancel, lastPoll := None, None;
    NothingListed();
    NothingCancelled();
    if cancelOrders {
      cancelled, errors, raised, cancel, lastPoll := CancelAndWait(broker, clock);
    }
    if raised {
      return None, Exchange(cancel, lastPoll, None, []);
    }
    var fetched := broker.GetPositions();
    if !fetched.Got? {
      return Some(FlattenResult(cancelled, [], errors + [ClosePositionsFailed])),
             Exchange(cancel, lastPoll, Some(fetched), []);
    }
    ghost var open := broker.open;
    var results, schedule := CloseConcurrently(broker, fetched.value);
    x := Exchange(cancel, lastPoll, Some(fetched), schedule);
    result := Some(FlattenResult(cancelled, Keep(results, Closed), errors + CloseErrors(Keep(results, NotClosed))));
    if result.value.errors == [] {
      NothingOpen(fetched.value, results, open, broker.open);
    }
  }

  lemma {:induction false} NothingOpen(listed: seq<Position>, results: seq<CloseResult>,
                                        open: map<string, Position>, after: map<string, Position>)
    requires Lists(listed, open) && |results| == |listed| && after.Keys <= open.Keys
    requires forall i :: 0 <= i < |listed| && results[i].ok ==> listed[i].symbol !in after
    requires CloseErrors(Keep(results, NotClosed)) == []
    requires forall s :: s in open ==> open[s].symbol == s
    ensures after == map[]
  {
    KeptCounts(results);
    forall i | 0 <= i < |results| ensures listed[i].symbol !in after {
      assert results[i] in results;
    }
    forall s | s in open ensures s !in after {
      var i :| 0 <= i < |listed| && listed[i] == open[s];
    }
    assert after.Keys == {};
  }

  /** The positions `get_open_positions` returns: any failure, an unreadable
      quantity included, is logged and looks like no position at all. */
  function OpenPositions(reply: Reply<seq<Position>>): seq<Position> {
    if reply.Got? && forall p :: p in reply.value ==> p.qty.Some? then reply.value else []
  }
}
