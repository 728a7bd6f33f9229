/** Cron schedules as sets of instants, and the timer that both scheduled controllers drive.

    A parsed cron expression denotes a set of ticks in which every window of some fixed length
    holds a tick; "@every" denotes no such set and is not a Schedule. */
module Ticks {
  import opened Wrappers
  import opened Api

  datatype TickSet = TickSet(isTick: Time -> bool, horizon: nat)

  ghost predicate TickWithin(s: TickSet, t: Time) {
    exists u :: t < u <= t + s.horizon && s.isTick(u)
  }

  ghost predicate Recurring(s: TickSet) {
    forall t :: TickWithin(s, t)
  }

  lemma EveryInstantRecurs()
    ensures Recurring(TickSet((t: Time) => true, 1))
  {
    var s := TickSet((t: Time) => true, 1);
    forall t: Time ensures TickWithin(s, t) {
      assert s.isTick(t + 1);
    }
  }

  type Schedule = s: TickSet | Recurring(s)
    ghost witness (EveryInstantRecurs(); TickSet((t: Time) => true, 1))

  /** schedule.Next(t): the least tick after t. */
  function Next(s: Schedule, t: Time): (u: Time)
    ensures t < u && s.isTick(u)
    ensures forall v :: t < v < u ==> !s.isTick(v)
  {
    assert TickWithin(s, t);
    SearchFrom(s, t, t + 1)
  }

  function SearchFrom(s: Schedule, t: Time, u: Time): (r: Time)
    requires t < u
    requires forall v :: t < v < u ==> !s.isTick(v)
    requires exists w :: u <= w <= t + s.horizon && s.isTick(w)
    ensures u <= r && s.isTick(r)
    ensures forall v :: t < v < r ==> !s.isTick(v)
    decreases t + s.horizon - u
  {
    if s.isTick(u) then u else SearchFrom(s, t, u + 1)
  }

  /** Between two instants with no tick in between, Next does not move. */
  lemma NextStable(s: Schedule, t: Time, t': Time)
    requires t <= t' < Next(s, t)
    ensures Next(s, t') == Next(s, t)
  {
    assert s.isTick(Next(s, t)) && s.isTick(Next(s, t'));
  }

  /** The number of ticks in (a, b]. */
  function Count(s: TickSet, a: Time, b: Time): nat
    decreases b - a
  {
    if b <= a then 0 else Count(s, a, b - 1) + if s.isTick(b) then 1 else 0
  }

  lemma {:induction false} CountSplit(s: TickSet, a: Time, b: Time, c: Time)
    requires a <= b <= c
    ensures Count(s, a, c) == Count(s, a, b) + Count(s, b, c)
    decreases c - b
  {
    if b < c {
      CountSplit(s, a, b, c - 1);
    }
  }

  lemma {:induction false} CountAtLeastOne(s: TickSet, a: Time, b: Time, n: Time)
    requires a < n <= b && s.isTick(n)
    ensures Count(s, a, b) >= 1
    decreases b - n
  {
    if n < b {
      CountAtLeastOne(s, a, b - 1, n);
    }
  }

  /* The timer: the two instants of the status that decide whether to execute. */

  datatype Timer = Timer(last: Option<Time>, next: Option<Time>)

  predicate Due(timer: Timer, now: Time) {
    timer.last.None? || (timer.next.Some? && timer.next.value <= now)
  }

  // One reconcile as the timer sees it. Skip leaves the timer alone. Wait is a reconcile that
  // stored a new next time without executing. Execute is one that persisted its start; it is
  // rescheduled when the write of the next time was applied as well.
  datatype Action = Skip(at: Time) | Wait(at: Time) | Execute(at: Time, rescheduled: bool)

  predicate Enabled(timer: Timer, a: Action) {
    match a
    case Skip(_) => true
    case Wait(at) => !Due(timer, at)
    case Execute(at, _) => Due(timer, at)
  }

  function Advance(s: Schedule, timer: Timer, a: Action): Timer {
    match a
    case Skip(_) => timer
    case Wait(at) => timer.(next := Some(Next(s, at)))
    case Execute(at, rescheduled) =>
      Timer(Some(at), if rescheduled then Some(Next(s, at)) else timer.next)
  }

  function TimerAfter(s: Schedule, log: seq<Action>): Timer {
    if log == [] then Timer(None, None) else Advance(s, TimerAfter(s, log[..|log| - 1]), log[|log| - 1])
  }

  // A log the timer can produce: time does not go back and every action is enabled.
  predicate Legal(s: Schedule, log: seq<Action>) {
    log == [] ||
    var init, a := log[..|log| - 1], log[|log| - 1];
    && Legal(s, init)
    && Enabled(TimerAfter(s, init), a)
    && (init == [] || init[|init| - 1].at <= a.at)
  }

  function Executions(log: seq<Action>): nat {
    if log == [] then 0
    else Executions(log[..|log| - 1]) + if log[|log| - 1].Execute? then 1 else 0
  }

  // Executions whose write of the next time failed or was interrupted.
  function Unrescheduled(log: seq<Action>): nat {
    if log == [] then 0
    else Unrescheduled(log[..|log| - 1]) +
         if log[|log| - 1].Execute? && !log[|log| - 1].rescheduled then 1 else 0
  }

  // The instant of the first execution, if any.
  function First(log: seq<Action>): Option<Time> {
    if log == [] then None
    else
      var f := First(log[..|log| - 1]);
      if f.None? && log[|log| - 1].Execute? then Some(log[|log| - 1].at) else f
  }

  // The bookkeeping behind tick accounting: while the stored next tick is still to come, it has
  // not been paid for; a stale one is paid for by the execution that failed to move it.
  ghost predicate Accounted(s: Schedule, log: seq<Action>) {
    var timer := TimerAfter(s, log);
    && (timer.next.Some? ==> s.isTick(timer.next.value))
    && match (timer.last, First(log))
       case (None, None) => timer.next.None? && Executions(log) == 0
       case (Some(last), Some(first)) =>
         var stale := if timer.next.Some? && timer.next.value <= last then 1 else 0;
         && first <= last <= log[|log| - 1].at
         && Executions(log) + stale <= 1 + Count(s, first, last) + Unrescheduled(log)
       case _ => false
  }

  lemma {:induction false} LegalIsAccounted(s: Schedule, log: seq<Action>)
    requires Legal(s, log)
    ensures log != [] ==> Accounted(s, log)
  {
    if |log| > 0 {
      var init, a := log[..|log| - 1], log[|log| - 1];
      LegalIsAccounted(s, init);
      var timer := TimerAfter(s, init);
      if a.Execute? && timer.last.Some? {
        var first, last, n := First(init).value, timer.last.value, timer.next.value;
        CountSplit(s, first, last, a.at);
        if last < n {
          CountAtLeastOne(s, last, a.at, n);
        }
      }
    }
  }

  /** Tick accounting. However the reconciles interleave with failing writes and crashes, there
      are at most as many executions as one, plus the ticks since the first, plus the executions
      whose next time was not stored. */
  lemma TickAccounting(s: Schedule, log: seq<Action>)
    requires Legal(s, log)
    requires First(log).Some?
    ensures First(log).value <= log[|log| - 1].at
    ensures Executions(log) <= 1 + Count(s, First(log).value, log[|log| - 1].at) + Unrescheduled(log)
  {
    LegalIsAccounted(s, log);
    var last := TimerAfter(s, log).last.value;
    CountSplit(s, First(log).value, last, log[|log| - 1].at);
  }

  // The latest execution, if any.
  function Latest(log: seq<Action>): Option<Action>
    ensures Latest(log).Some? ==> Latest(log).value.Execute?
  {
    if log == [] then None
    else if log[|log| - 1].Execute? then Some(log[|log| - 1])
    else Latest(log[..|log| - 1])
  }

  /** Waiting reconciles never move a next time that an execution stored: it stays the first tick
      after that execution until the next execution comes. */
  lemma {:induction false} StoredNextIsFirstTick(s: Schedule, log: seq<Action>)
    requires Legal(s, log)
    requires Latest(log).Some?
    ensures log != [] && Latest(log).value.at <= log[|log| - 1].at
    ensures TimerAfter(s, log).last == Some(Latest(log).value.at)
    ensures Latest(log).value.rescheduled ==>
              TimerAfter(s, log).next == Some(Next(s, Latest(log).value.at))
  {
    var init, a := log[..|log| - 1], log[|log| - 1];
    if !a.Execute? {
      StoredNextIsFirstTick(s, init);
      if a.Wait? && Latest(init).value.rescheduled {
        NextStable(s, Latest(init).value.at, a.at);
      }
    }
  }

  /** Coalescing. An execution whose predecessor stored its next time happens only once the first
      tick after the predecessor has come; it consumes that tick together with any later ones up
      to now, and the tick is its own, since these intervals do not overlap. */
  lemma ExecutionConsumesTicks(s: Schedule, log: seq<Action>)
    requires Legal(s, log) && log != [] && log[|log| - 1].Execute?
    requires Latest(log[..|log| - 1]).Some? && Latest(log[..|log| - 1]).value.rescheduled
    ensures var prev := Latest(log[..|log| - 1]).value.at;
            && prev < Next(s, prev) <= log[|log| - 1].at
            && Count(s, prev, log[|log| - 1].at) >= 1
  {
    var init, now := log[..|log| - 1], log[|log| - 1].at;
    StoredNextIsFirstTick(s, init);
    CountAtLeastOne(s, Latest(init).value.at, now, Next(s, Latest(init).value.at));
  }
}
