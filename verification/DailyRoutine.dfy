/** The daily scheduler (main.py): `_daily_routine_loop` and its restart by the
    task supervisor.

    The loop body is ten guarded steps in a fixed order. A date is a day number,
    a time the time of day, both in New York. The marks kept in the object
    survive a restart of the loop, the marks kept in its local variables do not.
  */
module DailyRoutine {
  import opened Clock
  import opened Options
  import F = Flatten

  datatype Task =
    | Backfill | Regime | Earnings | Watchlist | Thresholds | Premarket | BudgetReset | Flatten | Journal | Follower

  const ORDER: seq<Task> :=
    [Backfill, Regime, Earnings, Watchlist, Thresholds, Premarket, BudgetReset, Flatten, Journal, Follower]

  /** Marks that are fields of the platform object. */
  predicate Kept(t: Task) { t in {Regime, BudgetReset, Flatten, Journal, Follower} }

  datatype Schedule = Schedule(backfill: int, premarket: int, flatten: int, journal: int, hasBudget: bool)

  /** The clock as read at the top of the body. */
  datatype Reading = Reading(date: int, time: int, weekday: bool)

  /** How a step ends: `Raised` is an exception the body catches and logs, `Died`
      one that ends the loop. */
  datatype Outcome = Finished | Raised | Died

  datatype Event = Event(task: Task, reading: Reading, outcome: Outcome)

  /** For each task the last date it was marked done for, and what was run so far. */
  datatype State = State(done: map<Task, int>, log: seq<Event>)

  predicate DoneFor(done: map<Task, int>, t: Task, date: int) { t in done && done[t] == date }

  /** The condition of each step. */
  predicate Due(s: Schedule, done: map<Task, int>, t: Task, r: Reading) {
    !DoneFor(done, t, r.date) &&
    match t
    case Backfill => r.weekday && r.time >= s.backfill
    case Regime => r.weekday && DoneFor(done, Backfill, r.date)
    case Earnings => r.time >= s.backfill
    case Watchlist => r.time >= s.backfill
    case Thresholds => DoneFor(done, Watchlist, r.date) && r.time >= s.backfill
    case Premarket => r.weekday && DoneFor(done, Backfill, r.date) && r.time >= s.premarket
    case BudgetReset => s.hasBudget && r.time >= s.premarket
    case Flatten => r.weekday && s.flatten <= r.time < s.journal
    case Journal => r.weekday && r.time >= s.journal
    case Follower => r.weekday && DoneFor(done, Journal, r.date) && r.time >= s.journal
  }

  /** The budget reset is the one step outside a try block. */
  predicate EndsLoop(t: Task, o: Outcome) { o.Died? || (t == BudgetReset && o.Raised?) }

  function Restarted(done: map<Task, int>): map<Task, int> { map t | t in done && Kept(t) :: done[t] }

  /** One step: the new state and whether the loop has ended (and been restarted). */
  function Attempt(s: Schedule, st: State, t: Task, r: Reading, o: Outcome): (State, bool) {
    if !Due(s, st.done, t, r) then (st, false)
    else
      var log := st.log + [Event(t, r, o)];
      if EndsLoop(t, o) then (State(Restarted(st.done), log), true)
      else (State(if o.Finished? then st.done[t := r.date] else st.done, log), false)
  }

  /** The first `n` steps of one pass; the rest is skipped once the loop has ended. */
  function Pass(s: Schedule, st: State, r: Reading, outcomes: Task -> Outcome, n: nat): (State, bool)
    requires n <= |ORDER|
  {
    if n == 0 then (st, false)
    else
      var (st', ended) := Pass(s, st, r, outcomes, n - 1);
      if ended then (st', true) else Attempt(s, st', ORDER[n - 1], r, outcomes(ORDER[n - 1]))
  }

  datatype Tick = Tick(reading: Reading, outcomes: Task -> Outcome) | Restart

  function Step(s: Schedule, st: State, tick: Tick): State {
    match tick
    case Tick(r, outcomes) => Pass(s, st, r, outcomes, |ORDER|).0
    case Restart => st.(done := Restarted(st.done))
  }

  function Run(s: Schedule, ticks: seq<Tick>): State {
    if ticks == [] then State(map[], [])
    else Step(s, Run(s, ticks[..|ticks| - 1]), ticks[|ticks| - 1])
  }

  // ---------------------------------------------------------------- what every run keeps

  predicate NotLaterDate(a: Reading, b: Reading) { a.date <= b.date }

  predicate NotLaterTime(a: Reading, b: Reading) { a.date < b.date || (a.date == b.date && a.time <= b.time) }

  ghost predicate Forward(ticks: seq<Tick>, before: (Reading, Reading) -> bool) {
    forall i, j :: 0 <= i < j < |ticks| && ticks[i].Tick? && ticks[j].Tick? ==>
      before(ticks[i].reading, ticks[j].reading)
  }

  /** Dates never go back. The time of day may: it repeats when clocks are set back. */
  ghost predicate DatesForward(ticks: seq<Tick>) { Forward(ticks, NotLaterDate) }

  predicate Success(e: Event, t: Task, date: int) { e.task == t && e.reading.date == date && e.outcome.Finished? }

  ghost predicate Succeeded(log: seq<Event>, t: Task, date: int) {
    exists i :: 0 <= i < |log| && Success(log[i], t, date)
  }

  /** The task whose success on the same date a task waits for. */
  function Needs(t: Task): seq<Task> {
    match t
    case Regime => [Backfill]
    case Premarket => [Backfill]
    case Thresholds => [Watchlist]
    case Follower => [Journal]
    case _ => []
  }

  predicate InWindow(s: Schedule, e: Event) {
    match e.task
    case Flatten => e.reading.weekday && s.flatten <= e.reading.time < s.journal
    case Journal => e.reading.weekday && s.journal <= e.reading.time
    case Follower => e.reading.weekday && s.journal <= e.reading.time
    case _ => true
  }

  /** A kept task is not even started again on a date it was marked done for. */
  ghost predicate OncePerDate(log: seq<Event>) {
    forall i, j :: 0 <= i < j < |log| && Kept(log[j].task) ==> !Success(log[i], log[j].task, log[j].reading.date)
  }

  ghost predicate NeedsMet(log: seq<Event>) {
    forall i :: 0 <= i < |log| ==> forall u :: u in Needs(log[i].task) ==> Succeeded(log[..i], u, log[i].reading.date)
  }

  ghost predicate Windows(s: Schedule, log: seq<Event>) {
    forall i :: 0 <= i < |log| ==> InWindow(s, log[i])
  }

  ghost predicate InOrder(log: seq<Event>, before: (Reading, Reading) -> bool) {
    forall i, j :: 0 <= i < j < |log| ==> before(log[i].reading, log[j].reading)
  }

  /** Every mark stands for a success in the log, and a kept mark for the last one. */
  ghost predicate Marked(st: State) {
    && (forall t :: t in st.done ==> Succeeded(st.log, t, st.done[t]))
    && (forall i :: 0 <= i < |st.log| && Kept(st.log[i].task) && st.log[i].outcome.Finished? ==>
          st.log[i].task in st.done && st.log[i].reading.date <= st.done[st.log[i].task])
  }

  ghost predicate Inv(s: Schedule, st: State) {
    Marked(st) && OncePerDate(st.log) && NeedsMet(st.log) && Windows(s, st.log)
  }

  ghost predicate NotAfter(log: seq<Event>, r: Reading) {
    forall i :: 0 <= i < |log| ==> NotLaterDate(log[i].reading, r)
  }

  lemma SucceededAppend(log: seq<Event>, e: Event, t: Task, date: int)
    ensures Succeeded(log + [e], t, date) <==> Succeeded(log, t, date) || Success(e, t, date)
  {
    assert (log + [e])[|log|] == e;
    if i :| 0 <= i < |log| && Success(log[i], t, date) { assert (log + [e])[i] == log[i]; }
  }

  /** While a kept task is due, its successes are all of earlier dates. */
  lemma EarlierSuccess(s: Schedule, st: State, t: Task, r: Reading, i: nat)
    requires Inv(s, st) && NotAfter(st.log, r) && Due(s, st.done, t, r) && Kept(t) && i < |st.log|
    ensures st.log[i].task == t && st.log[i].outcome.Finished? ==> st.log[i].reading.date < r.date
  {
    if st.log[i].task == t && st.log[i].outcome.Finished? {
      var k :| 0 <= k < |st.log| && Success(st.log[k], t, st.done[t]);
      assert NotLaterDate(st.log[k].reading, r);
    }
  }

  lemma LogGrows(s: Schedule, st: State, t: Task, r: Reading, o: Outcome)
    requires Inv(s, st) && NotAfter(st.log, r) && Due(s, st.done, t, r)
    ensures var log := st.log + [Event(t, r, o)];
            OncePerDate(log) && NeedsMet(log) && Windows(s, log) && NotAfter(log, r)
  {
    var e := Event(t, r, o);
    var log := st.log + [e];
    forall i, j | 0 <= i < j < |log| && Kept(log[j].task) ensures !Success(log[i], log[j].task, log[j].reading.date) {
      if j == |st.log| { EarlierSuccess(s, st, t, r, i); }
    }
    forall i | 0 <= i < |log|
      ensures forall u :: u in Needs(log[i].task) ==> Succeeded(log[..i], u, log[i].reading.date)
    {
      if i < |st.log| {
        assert log[..i] == st.log[..i];
      } else {
        assert log[..i] == st.log;
      }
    }
  }

  lemma MarksGrow(s: Schedule, st: State, t: Task, r: Reading, o: Outcome)
    requires Inv(s, st) && NotAfter(st.log, r)
    ensures Marked(State(if o.Finished? then st.done[t := r.date] else st.done, st.log + [Event(t, r, o)]))
    ensures !o.Finished? ==> Marked(State(Restarted(st.done), st.log + [Event(t, r, o)]))
  {
    var e := Event(t, r, o);
    forall u, d ensures Succeeded(st.log + [e], u, d) <==> Succeeded(st.log, u, d) || Success(e, u, d) {
      SucceededAppend(st.log, e, u, d);
    }
  }

  lemma RestartKeeps(s: Schedule, st: State)
    requires Inv(s, st)
    ensures Inv(s, st.(done := Restarted(st.done)))
  {
  }

  lemma AttemptKeeps(s: Schedule, st: State, t: Task, r: Reading, o: Outcome)
    requires Inv(s, st) && NotAfter(st.log, r)
    ensures Inv(s, Attempt(s, st, t, r, o).0) && NotAfter(Attempt(s, st, t, r, o).0.log, r)
  {
    if Due(s, st.done, t, r) {
      LogGrows(s, st, t, r, o);
      MarksGrow(s, st, t, r, o);
    }
  }

  lemma {:induction false} PassKeeps(s: Schedule, st: State, r: Reading, outcomes: Task -> Outcome, n: nat)
    requires Inv(s, st) && NotAfter(st.log, r) && n <= |ORDER|
    ensures Inv(s, Pass(s, st, r, outcomes, n).0) && NotAfter(Pass(s, st, r, outcomes, n).0.log, r)
  {
    if n > 0 {
      PassKeeps(s, st, r, outcomes, n - 1);
      hide Inv, NotAfter, Attempt;
      AttemptKeeps(s, Pass(s, st, r, outcomes, n - 1).0, ORDER[n - 1], r, outcomes(ORDER[n - 1]));
    }
  }

  predicate ReadAt(ticks: seq<Tick>, k: int, r: Reading) {
    0 <= k < |ticks| && ticks[k].Tick? && ticks[k].reading == r
  }

  ghost predicate ReadIn(ticks: seq<Tick>, r: Reading) { exists k :: ReadAt(ticks, k, r) }

  /** The log only holds readings of the run. */
  ghost predicate LogWithin(log: seq<Event>, ticks: seq<Tick>) {
    forall i :: 0 <= i < |log| ==> ReadIn(ticks, log[i].reading)
  }

  lemma {:induction false} PassReadings(s: Schedule, st: State, r: Reading, outcomes: Task -> Outcome, n: nat)
    requires n <= |ORDER|
    ensures st.log <= Pass(s, st, r, outcomes, n).0.log
    ensures forall i :: |st.log| <= i < |Pass(s, st, r, outcomes, n).0.log| ==>
              Pass(s, st, r, outcomes, n).0.log[i].reading == r
  {
    if n > 0 { PassReadings(s, st, r, outcomes, n - 1); }
  }

  lemma StepWithin(s: Schedule, st: State, ticks: seq<Tick>, tick: Tick)
    requires LogWithin(st.log, ticks)
    ensures LogWithin(Step(s, st, tick).log, ticks + [tick])
  {
    match tick
    case Tick(r, outcomes) =>
      PassReadings(s, st, r, outcomes, |ORDER|);
      WithinGrows(st.log, Pass(s, st, r, outcomes, |ORDER|).0.log, ticks, tick);
    case Restart =>
      WithinGrows(st.log, st.log, ticks, tick);
  }

  lemma WithinGrows(log: seq<Event>, more: seq<Event>, ticks: seq<Tick>, tick: Tick)
    requires LogWithin(log, ticks) && log <= more
    requires forall i :: |log| <= i < |more| ==> tick.Tick? && more[i].reading == tick.reading
    ensures LogWithin(more, ticks + [tick])
  {
    forall i | 0 <= i < |more| ensures ReadIn(ticks + [tick], more[i].reading) {
      if i < |log| {
        assert ReadIn(ticks, log[i].reading);
        var k :| ReadAt(ticks, k, log[i].reading);
        assert ReadAt(ticks + [tick], k, more[i].reading);
      } else {
        assert ReadAt(ticks + [tick], |ticks|, more[i].reading);
      }
    }
  }

  lemma {:induction false} RunKeeps(s: Schedule, ticks: seq<Tick>)
    requires DatesForward(ticks)
    ensures Inv(s, Run(s, ticks)) && LogWithin(Run(s, ticks).log, ticks)
  {
    if ticks != [] {
      var n := |ticks| - 1;
      var st := Run(s, ticks[..n]);
      RunKeeps(s, ticks[..n]);
      assert ticks == ticks[..n] + [ticks[n]];
      if ticks[n].Tick? { ReadingsPast(st.log, ticks, n); }
      hide Inv, DatesForward, LogWithin;
      StepWithin(s, st, ticks[..n], ticks[n]);
      match ticks[n]
      case Tick(r, outcomes) => PassKeeps(s, st, r, outcomes, |ORDER|);
      case Restart => RestartKeeps(s, st);
    }
  }

  lemma ReadingsPast(log: seq<Event>, ticks: seq<Tick>, n: nat)
    requires DatesForward(ticks) && n < |ticks| && ticks[n].Tick? && LogWithin(log, ticks[..n])
    ensures NotAfter(log, ticks[n].reading)
  {
    forall i | 0 <= i < |log| ensures NotLaterDate(log[i].reading, ticks[n].reading) {
      ReadBefore(log, ticks, n, i, NotLaterDate);
    }
  }

  /** The log follows the clock in whatever sense the readings do. */
  lemma {:induction false} RunInOrder(s: Schedule, ticks: seq<Tick>, before: (Reading, Reading) -> bool)
    requires Forward(ticks, before) && forall r :: before(r, r)
    ensures InOrder(Run(s, ticks).log, before) && LogWithin(Run(s, ticks).log, ticks)
  {
    if ticks != [] {
      var n := |ticks| - 1;
      var st := Run(s, ticks[..n]);
      RunInOrder(s, ticks[..n], before);
      assert ticks == ticks[..n] + [ticks[n]];
      StepWithin(s, st, ticks[..n], ticks[n]);
      if ticks[n].Tick? {
        var r := ticks[n].reading;
        PassReadings(s, st, r, ticks[n].outcomes, |ORDER|);
        var log := Run(s, ticks).log;
        hide Run, Pass, LogWithin;
        forall i | 0 <= i < |st.log| ensures before(log[i].reading, r) {
          ReadBefore(st.log, ticks, n, i, before);
        }
      }
    }
  }

  lemma ReadBefore(log: seq<Event>, ticks: seq<Tick>, n: nat, i: nat, before: (Reading, Reading) -> bool)
    requires Forward(ticks, before) && n < |ticks| && ticks[n].Tick? && LogWithin(log, ticks[..n]) && i < |log|
    ensures before(log[i].reading, ticks[n].reading)
  {
    assert ReadIn(ticks[..n], log[i].reading);
    var k :| ReadAt(ticks[..n], k, log[i].reading);
    assert ticks[k] == ticks[..n][k];
  }

  // ---------------------------------------------------------------- what that means

  /** Regime, budget reset, flatten, journal and follower: once marked done for a
      date, never started again on that date, whatever restarts happen between. */
  lemma AtMostOncePerDate(s: Schedule, ticks: seq<Tick>, i: nat, j: nat)
    requires DatesForward(ticks) && i < j < |Run(s, ticks).log|
    requires var a, b := Run(s, ticks).log[i], Run(s, ticks).log[j];
             && a.task in {Regime, BudgetReset, Flatten, Journal, Follower}
             && a.task == b.task && a.reading.date == b.reading.date
    ensures !Run(s, ticks).log[i].outcome.Finished?
  {
    RunKeeps(s, ticks);
  }

  /** A restart of the loop forgets the marks of the five tasks kept in local variables
      and no others. */
  lemma RestartForgets(s: Schedule, st: State, t: Task, date: int)
    ensures DoneFor(Step(s, st, Restart).done, t, date) <==>
            DoneFor(st.done, t, date) && t !in {Backfill, Earnings, Watchlist, Thresholds, Premarket}
    ensures Step(s, st, Restart).log == st.log
  {
  }

  /** A step that raises is logged and the loop goes on, except for the budget reset:
      that one ends the loop, and with it the marks of its local variables. */
  lemma RaisedSteps(s: Schedule, st: State, t: Task, r: Reading, u: Task, date: int)
    requires Due(s, st.done, t, r)
    ensures var (after, ended) := Attempt(s, st, t, r, Raised);
            && after.log == st.log + [Event(t, r, Raised)]
            && (ended <==> t == BudgetReset)
            && (t != BudgetReset ==> after.done == st.done)
            && (t == BudgetReset ==>
                  (DoneFor(after.done, u, date) <==>
                   DoneFor(st.done, u, date) && u !in {Backfill, Earnings, Watchlist, Thresholds, Premarket}))
  {
    hide Due;
  }

  /** A dependent task starts only after its prerequisite succeeded on that date. */
  lemma DependenciesHold(s: Schedule, ticks: seq<Tick>, i: nat, u: Task)
    requires DatesForward(ticks) && i < |Run(s, ticks).log| && u in Needs(Run(s, ticks).log[i].task)
    ensures Succeeded(Run(s, ticks).log[..i], u, Run(s, ticks).log[i].reading.date)
  {
    RunKeeps(s, ticks);
  }

  /** Flattening starts only on a weekday inside its window. */
  lemma FlattenInWindow(s: Schedule, ticks: seq<Tick>, i: nat)
    requires DatesForward(ticks) && i < |Run(s, ticks).log| && Run(s, ticks).log[i].task == Flatten
    ensures var r := Run(s, ticks).log[i].reading; r.weekday && s.flatten <= r.time < s.journal
  {
    RunKeeps(s, ticks);
    assert InWindow(s, Run(s, ticks).log[i]);
  }

  /** It never starts after the journal of the same date, unless the time of day
      went back in between. */
  lemma FlattenBeforeJournal(s: Schedule, ticks: seq<Tick>, k: nat, i: nat)
    requires Forward(ticks, NotLaterTime) && k < i < |Run(s, ticks).log|
    requires Run(s, ticks).log[k].task == Journal && Run(s, ticks).log[i].task == Flatten
    ensures Run(s, ticks).log[k].reading.date < Run(s, ticks).log[i].reading.date
  {
    RunInOrder(s, ticks, NotLaterTime);
    assert DatesForward(ticks);
    RunKeeps(s, ticks);
    var log := Run(s, ticks).log;
    hide Run, Forward;
    assert InWindow(s, log[k]) && InWindow(s, log[i]) && NotLaterTime(log[k].reading, log[i].reading);
  }

  // ---------------------------------------------------------------- nothing is forgotten

  /** The hours of a task, said with the clock and the schedule alone; what waits for
      a backfill or the watchlist finds it done in the same pass. */
  predicate Hours(s: Schedule, done: map<Task, int>, t: Task, r: Reading) {
    match t
    case Backfill => r.weekday && r.time >= s.backfill
    case Regime => r.weekday && (r.time >= s.backfill || DoneFor(done, Backfill, r.date))
    case Earnings => r.time >= s.backfill
    case Watchlist => r.time >= s.backfill
    case Thresholds => r.time >= s.backfill
    case Premarket =>
      r.weekday && r.time >= s.premarket && (r.time >= s.backfill || DoneFor(done, Backfill, r.date))
    case BudgetReset => s.hasBudget && r.time >= s.premarket
    case Flatten => r.weekday && s.flatten <= r.time && r.time < s.journal
    case Journal => r.weekday && r.time >= s.journal
    case Follower => r.weekday && r.time >= s.journal
  }

  /** Where a task stands in the loop body. */
  function Place(t: Task): nat {
    match t
    case Backfill => 0
    case Regime => 1
    case Earnings => 2
    case Watchlist => 3
    case Thresholds => 4
    case Premarket => 5
    case BudgetReset => 6
    case Flatten => 7
    case Journal => 8
    case Follower => 9
  }

  ghost predicate AllFinished(outcomes: Task -> Outcome) { forall t :: outcomes(t).Finished? }

  lemma FinishedAttempt(s: Schedule, st: State, u: Task, r: Reading, o: Outcome, t: Task)
    requires o.Finished?
    ensures !Attempt(s, st, u, r, o).1
    ensures DoneFor(Attempt(s, st, u, r, o).0.done, t, r.date) <==>
            DoneFor(st.done, t, r.date) || (t == u && Due(s, st.done, u, r))
  {
    hide Due;
  }

  /** Whether the marks in the middle of a pass are those of the start and of the
      tasks before place `n` whose hours it is. */
  ghost predicate DoneUpTo(s: Schedule, start: map<Task, int>, mid: map<Task, int>, r: Reading, n: nat) {
    forall t :: DoneFor(mid, t, r.date) <==> DoneFor(start, t, r.date) || (Place(t) < n && Hours(s, start, t, r))
  }

  lemma DueInHours(s: Schedule, start: map<Task, int>, mid: map<Task, int>, r: Reading, u: Task)
    requires DoneUpTo(s, start, mid, r, Place(u))
    ensures DoneFor(mid, u, r.date) || Due(s, mid, u, r) <==> DoneFor(start, u, r.date) || Hours(s, start, u, r)
  {
    assert DoneFor(mid, u, r.date) <==> DoneFor(start, u, r.date);
    assert Place(u) > 0 ==>
      (DoneFor(mid, Backfill, r.date) <==> DoneFor(start, Backfill, r.date) || Hours(s, start, Backfill, r));
    assert Place(u) > 3 ==>
      (DoneFor(mid, Watchlist, r.date) <==> DoneFor(start, Watchlist, r.date) || Hours(s, start, Watchlist, r));
    assert Place(u) > 8 ==>
      (DoneFor(mid, Journal, r.date) <==> DoneFor(start, Journal, r.date) || Hours(s, start, Journal, r));
  }

  lemma Places(n: nat)
    requires n < |ORDER|
    ensures Place(ORDER[n]) == n && forall t :: Place(t) == n ==> t == ORDER[n]
  {
  }

  lemma {:induction false} DoneAfter(s: Schedule, st: State, r: Reading, outcomes: Task -> Outcome, n: nat)
    requires n <= |ORDER| && AllFinished(outcomes)
    ensures !Pass(s, st, r, outcomes, n).1
    ensures DoneUpTo(s, st.done, Pass(s, st, r, outcomes, n).0.done, r, n)
  {
    if n > 0 {
      var u, mid := ORDER[n - 1], Pass(s, st, r, outcomes, n - 1).0;
      Places(n - 1);
      DoneAfter(s, st, r, outcomes, n - 1);
      DueInHours(s, st.done, mid.done, r, u);
      assert outcomes(u).Finished?;
      hide Due, Attempt, Hours, DoneFor, Place;
      FinishedAttempt(s, mid, u, r, outcomes(u), u);
      var after := Attempt(s, mid, u, r, outcomes(u)).0;
      forall t ensures DoneFor(after.done, t, r.date) <==>
                       DoneFor(st.done, t, r.date) || (Place(t) < n && Hours(s, st.done, t, r))
      {
        FinishedAttempt(s, mid, u, r, outcomes(u), t);
        assert Place(t) == n - 1 ==> t == u;
      }
    }
  }

  /** After a pass without failures a task is marked done for the date exactly when it
      was before or the reading lies in its hours: every task runs when its time
      has come, and none before. */
  lemma PassCompletes(s: Schedule, st: State, r: Reading, outcomes: Task -> Outcome, t: Task)
    requires AllFinished(outcomes)
    ensures DoneFor(Pass(s, st, r, outcomes, |ORDER|).0.done, t, r.date) <==>
            DoneFor(st.done, t, r.date) || Hours(s, st.done, t, r)
  {
    DoneAfter(s, st, r, outcomes, |ORDER|);
    assert Place(t) < 10;
  }

  // ---------------------------------------------------------------- flattening again

  /** What `_run_flatten` got back: no broker client, or what was open before and,
      unless that looked like nothing, the exchange of `close_all_positions`. */
  datatype FlattenRun = NoClient | Ran(before: F.Reply<seq<F.Position>>, exchange: Option<F.Exchange>)

  ghost predicate Coherent(run: FlattenRun) {
    run.Ran? ==>
      && (run.exchange.Some? <==> F.OpenPositions(run.before) != [])
      && (run.exchange.Some? ==> F.Coherent(run.exchange.value) && run.exchange.value.cancel.Some?)
  }

  /** Only an exception keeps a flatten from being marked done. */
  function FlattenOutcome(run: FlattenRun): Outcome {
    if run.Ran? && run.exchange.Some? && F.Raises(run.exchange.value) then Raised else Finished
  }

  /** `_run_flatten`. It raises exactly when positions were seen, an order was
      cancelled and a poll of the wait returned a quantity that cannot be read. */
  method RunFlatten(client: F.Broker?, clock: MonotonicClock) returns (outcome: Outcome, ghost run: FlattenRun)
    requires client != null ==> client.Valid()
    modifies client, clock
    ensures Coherent(run) && outcome == FlattenOutcome(run) && (run.NoClient? <==> client == null)
    ensures outcome.Raised? <==>
            run.Ran? && run.exchange.Some? && F.Cancelled(run.exchange.value.cancel) != []
            && F.Unreadable(run.exchange.value.lastPoll.value)
    ensures client != null ==> client.Valid() && client.open.Keys <= old(client.open.Keys)
    ensures client != null && run.exchange.None? ==> client.requests == old(client.requests)
    ensures client != null && run.exchange.Some? && outcome.Finished? && F.ReportOf(run.exchange.value).errors == [] ==>
            client.open == map[]
  {
    if client == null {
      return Finished, NoClient;
    }
    var before := client.GetPositions();
    if F.OpenPositions(before) == [] {
      return Finished, Ran(before, None);
    }
    var result, x := F.CloseAllPositions(client, clock, true);
    hide F.ReportOf;
    outcome := if result.None? then Raised else Finished;
    run := Ran(before, Some(x));
  }

  /** At any reading inside the window flatten is due exactly when no flatten of
      that date has finished, whatever restarts happened. */
  lemma FlattenDueExactly(s: Schedule, ticks: seq<Tick>, next: Reading)
    requires DatesForward(ticks) && next.weekday && s.flatten <= next.time < s.journal
    requires forall i :: 0 <= i < |ticks| && ticks[i].Tick? ==> ticks[i].reading.date <= next.date
    ensures Due(s, Run(s, ticks).done, Flatten, next) <==> !Succeeded(Run(s, ticks).log, Flatten, next.date)
  {
    RunKeeps(s, ticks);
    var st := Run(s, ticks);
    hide Run;
    if Succeeded(st.log, Flatten, next.date) {
      var k :| 0 <= k < |st.log| && Success(st.log[k], Flatten, st.done[Flatten]);
      assert ReadIn(ticks, st.log[k].reading);
    }
  }

  /** After the last flatten of a date so far, flatten is due again inside the
      window exactly when that one raised. */
  lemma FlattenDueAgain(s: Schedule, ticks: seq<Tick>, i: nat, run: FlattenRun, next: Reading)
    requires DatesForward(ticks) && next.weekday && s.flatten <= next.time < s.journal
    requires forall k :: 0 <= k < |ticks| && ticks[k].Tick? ==> ticks[k].reading.date <= next.date
    requires i < |Run(s, ticks).log|
    requires var e := Run(s, ticks).log[i];
             e.task == Flatten && e.reading.date == next.date && e.outcome == FlattenOutcome(run)
    requires forall k :: i < k < |Run(s, ticks).log| ==> Run(s, ticks).log[k].task != Flatten
    ensures Due(s, Run(s, ticks).done, Flatten, next) <==>
            run.Ran? && run.exchange.Some? && F.Raises(run.exchange.value)
  {
    FlattenDueExactly(s, ticks, next);
    RunKeeps(s, ticks);
    var log := Run(s, ticks).log;
    hide Run, F.Raises;
    if run.Ran? && run.exchange.Some? && F.Raises(run.exchange.value) {
      forall k | 0 <= k < |log| ensures !Success(log[k], Flatten, next.date) {}
    } else {
      assert Success(log[i], Flatten, next.date);
    }
  }

  /** Two flattens start on one date only if the first raised: one whose report
      holds errors, or that saw no positions, is not repeated that date. */
  lemma RetriedOnlyAfterRaise(s: Schedule, ticks: seq<Tick>, i: nat, j: nat, run: FlattenRun)
    requires DatesForward(ticks) && i < j < |Run(s, ticks).log|
    requires Run(s, ticks).log[i].task == Flatten == Run(s, ticks).log[j].task
    requires Run(s, ticks).log[i].outcome == FlattenOutcome(run)
    ensures Run(s, ticks).log[i].reading.date <= Run(s, ticks).log[j].reading.date
    ensures Run(s, ticks).log[i].reading.date == Run(s, ticks).log[j].reading.date ==>
            run.Ran? && run.exchange.Some? && F.Raises(run.exchange.value)
  {
    RunInOrder(s, ticks, NotLaterDate);
    if Run(s, ticks).log[i].reading.date == Run(s, ticks).log[j].reading.date { AtMostOncePerDate(s, ticks, i, j); }
    hide Run;
    assert NotLaterDate(Run(s, ticks).log[i].reading, Run(s, ticks).log[j].reading);
  }

  /** A failed position fetch, or one with a quantity that cannot be read, looks like a
      flat account: nothing is closed, and
      flatten is not started again that date. */
  lemma FetchFailureNotRetried(s: Schedule, ticks: seq<Tick>, i: nat, j: nat, run: FlattenRun)
    requires DatesForward(ticks) && i < j < |Run(s, ticks).log|
    requires Run(s, ticks).log[i].task == Flatten == Run(s, ticks).log[j].task
    requires Coherent(run) && run.Ran? && Run(s, ticks).log[i].outcome == FlattenOutcome(run)
    requires !run.before.Got? || exists p :: p in run.before.value && p.qty.None?
    ensures run.exchange.None?
    ensures Run(s, ticks).log[i].reading.date < Run(s, ticks).log[j].reading.date
  {
    RetriedOnlyAfterRaise(s, ticks, i, j, run);
  }

  // ---------------------------------------------------------------- clocks set back

  const LATE_ONLY: Schedule := Schedule(10_000, 10_000, 955, 990, false)

  function AllFinish(): Task -> Outcome { (t: Task) => Finished }

  /** A pass at 16:30 and one at 15:55 of the same date. */
  function SetBack(date: int): seq<Tick> {
    [Tick(Reading(date, 990, true), AllFinish()), Tick(Reading(date, 955, true), AllFinish())]
  }

  /** If the time of day goes back, a flatten can follow that date's journal. */
  lemma FlattenAfterJournal(date: int)
    ensures DatesForward(SetBack(date))
    ensures var log := Run(LATE_ONLY, SetBack(date)).log;
            |log| == 3 && log[0].task == Journal && log[2].task == Flatten && log[0].reading.date == log[2].reading.date
  {
    var ticks, st := SetBack(date), State(map[], []);
    var r, r' := ticks[0].reading, ticks[1].reading;
    EarlySteps(st, r);
    assert Pass(LATE_ONLY, st, r, AllFinish(), 8) == (st, false);
    var st2 := State(st.done[Journal := date], st.log + [Event(Journal, r, Finished)]);
    assert Pass(LATE_ONLY, st, r, AllFinish(), 9) == (st2, false);
    var st3 := State(st2.done[Follower := date], st2.log + [Event(Follower, r, Finished)]);
    assert Pass(LATE_ONLY, st, r, AllFinish(), 10) == (st3, false);
    EarlySteps(st3, r');
    var st4 := State(st3.done[Flatten := date], st3.log + [Event(Flatten, r', Finished)]);
    assert Pass(LATE_ONLY, st3, r', AllFinish(), 8) == (st4, false);
    assert Pass(LATE_ONLY, st3, r', AllFinish(), 9) == (st4, false);
    assert Pass(LATE_ONLY, st3, r', AllFinish(), 10) == (st4, false);
    assert ticks[..1][..0] == [] && ticks[..1] == [ticks[0]];
    assert Run(LATE_ONLY, ticks[..0]) == st;
    assert Run(LATE_ONLY, ticks[..1]) == st3;
  }

  lemma EarlySteps(st: State, r: Reading)
    requires r.time < 10_000 && Backfill !in st.done && Watchlist !in st.done
    ensures Pass(LATE_ONLY, st, r, AllFinish(), 7) == (st, false)
  {
    assert Pass(LATE_ONLY, st, r, AllFinish(), 0) == (st, false);
    assert Pass(LATE_ONLY, st, r, AllFinish(), 1) == (st, false);
    assert Pass(LATE_ONLY, st, r, AllFinish(), 2) == (st, false);
    assert Pass(LATE_ONLY, st, r, AllFinish(), 3) == (st, false);
    assert Pass(LATE_ONLY, st, r, AllFinish(), 4) == (st, false);
    assert Pass(LATE_ONLY, st, r, AllFinish(), 5) == (st, false);
    assert Pass(LATE_ONLY, st, r, AllFinish(), 6) == (st, false);
  }

  // ---------------------------------------------------------------- the loop

  class Platform {
    const schedule: Schedule
    var fields: map<Task, int>      // the marks that survive a restart
    ghost var log: seq<Event>

    constructor (schedule: Schedule)
      ensures this.schedule == schedule && fields == map[] && log == []
    {
      this.schedule, fields, log := schedule, map[], [];
    }

    /** One pass of the loop body; `marks` are the loop's local marks. */
    method LoopBody(marks: map<Task, int>, r: Reading, outcomes: Task -> Outcome)
      returns (marks': map<Task, int>, died: bool)
      requires forall t :: t in fields ==> Kept(t)
      requires forall t :: t in marks ==> !Kept(t)
      modifies this
      ensures forall t :: t in fields ==> Kept(t)
      ensures forall t :: t in marks' ==> !Kept(t)
      ensures (State(fields + marks', log), died) ==
              Pass(schedule, State(old(fields) + marks, old(log)), r, outcomes, |ORDER|)
    {
      marks' := marks;
      var n := 0;
      while n < |ORDER|
        invariant 0 <= n <= |ORDER|
        invariant (forall t :: t in fields ==> Kept(t)) && (forall t :: t in marks' ==> !Kept(t))
        invariant (State(fields + marks', log), false) ==
                  Pass(schedule, State(old(fields) + marks, old(log)), r, outcomes, n)
      {
        var t := ORDER[n];
        if Due(schedule, fields + marks', t, r) {
          var o := outcomes(t);
          log := log + [Event(t, r, o)];
          if EndsLoop(t, o) {
            RestartIs(fields, marks');
            marks' := map[];
            EndedStays(schedule, State(old(fields) + marks, old(log)), r, outcomes, n + 1);
            return marks', true;
          }
          if o.Finished? {
            MarkIs(fields, marks', t, r.date);
            if Kept(t) {
              fields := fields[t := r.date];
            } else {
              marks' := marks'[t := r.date];
            }
          }
        }
        n := n + 1;
      }
      died := false;
    }
  }

  lemma RestartIs(fields: map<Task, int>, marks: map<Task, int>)
    requires (forall t :: t in fields ==> Kept(t)) && (forall t :: t in marks ==> !Kept(t))
    ensures Restarted(fields + marks) == fields + map[]
  {
  }

  lemma MarkIs(fields: map<Task, int>, marks: map<Task, int>, t: Task, date: int)
    requires (forall u :: u in fields ==> Kept(u)) && (forall u :: u in marks ==> !Kept(u))
    ensures (fields + marks)[t := date] == if Kept(t) then fields[t := date] + marks else fields + marks[t := date]
  {
  }

  lemma {:induction false} EndedStays(s: Schedule, st: State, r: Reading, outcomes: Task -> Outcome, n: nat)
    requires n <= |ORDER| && Pass(s, st, r, outcomes, n).1
    ensures Pass(s, st, r, outcomes, |ORDER|) == Pass(s, st, r, outcomes, n)
    decreases |ORDER| - n
  {
    if n < |ORDER| { EndedStays(s, st, r, outcomes, n + 1); }
  }
}
