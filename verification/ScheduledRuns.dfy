/** Whole runs of a scheduled resource, GitCommit or PullRequest: any sequence of reconciles, with
    suspensions, lost writes and crashes anywhere.

    A run assumes that nobody else writes the status, that each reconcile reads the current object,
    and that the clock does not go back. A crash is a reconcile in which every call after some point
    fails: a failed call and a call never made leave the same behind. */
module ScheduledRuns {
  import opened Wrappers
  import opened Api
  import opened Ticks
  import opened StatusHelpers
  import opened ScheduleGate

  // One reconcile: what it stored, what it asked of the work queue, what it made of the timer, whether it
  // asked for any status update, the results it brought into the world, the records it stored, and when
  // it ended.
  datatype Step<R> = Step(
    status: Status<R>,
    outcome: Outcome,
    action: Action,
    writes: bool,
    produced: seq<R>,
    recorded: seq<Record<R>>,
    end: Time)

  // The stored status together with everything that has happened so far, oldest first.
  datatype World<R> = World(
    status: Status<R>,
    clock: Time,
    actions: seq<Action>,
    writes: nat,  // reconciles that asked for a status update
    produced: seq<R>,
    recorded: seq<Record<R>>)

  // The parts of the spec that runs depend on, and the result that stands for none.
  datatype Rules<R> = Rules(schedule: Result<Schedule, string>, limit: nat, none: R)

  function Created<R>(rules: Rules<R>, epoch: Time): World<R> {
    World(Status(rules.none, Unset, "", None, [], None, None, []), epoch, [], 0, [], [])
  }

  function Extend<R>(w: World<R>, step: Step<R>): World<R> {
    World(step.status, step.end, w.actions + [step.action], w.writes + (if step.writes then 1 else 0),
          w.produced + step.produced, w.recorded + step.recorded)
  }

  /** What either controller guarantees of one reconcile: at most one result, and only when it
      executes; at most one record, which the status it leaves agrees with and whose Done phase
      comes with the result just produced; REST entries untouched. */
  ghost predicate Shaped<R>(rules: Rules<R>, s: Status<R>, step: Step<R>) {
    && |step.produced| <= (if step.action.Execute? then 1 else 0)
    && step.status.restStatuses == s.restStatuses
    && if step.recorded == [] then
         && step.status.history == s.history && step.status.result == s.result
         && (step.status.phase == Done ==> s.phase == Done)
       else
         var r := step.recorded[0];
         && step.recorded == [r]
         && step.status.history == Truncate([r] + s.history, rules.limit)
         && step.status.phase == r.phase && step.status.message == r.message && step.status.result == r.result
         && (if r.phase == Done then step.produced == [r.result] else r.result == rules.none)
  }

  // Its part in the timer: Last and Next move as the abstract timer does.
  ghost predicate TimerShaped<R>(rules: Rules<R>, s: Status<R>, step: Step<R>) {
    rules.schedule.Success? ==>
      && Enabled(TimerOf(s), step.action)
      && TimerOf(step.status) == Advance(rules.schedule.value, TimerOf(s), step.action)
  }

  ghost predicate Timely<R>(clock: Time, step: Step<R>) {
    && clock <= step.action.at <= step.end
    && forall r :: r in step.recorded ==> clock <= r.time <= step.end
  }

  // The delay an execution asks for, before the next time n: with the one-minute clamp or without it.
  predicate Delays<R>(n: Time, step: Step<R>) {
    step.outcome.requeueAfter == n - step.end || step.outcome.requeueAfter == ClampedWait(n, step.end)
  }

  // Something will make the work queue look again: an error, a delay, or the event of a changed status.
  predicate Wakes<R(==)>(s: Status<R>, step: Step<R>) {
    step.status != s || step.outcome.failed || step.outcome.requeueAfter > 0
  }

  // When it looks again after this reconcile: after the delay, or at once for a changed status without one.
  function WakeTime<R>(step: Step<R>): Time {
    Max(step.end, step.end + step.outcome.requeueAfter)
  }

  function After<R>(rules: Rules<R>, epoch: Time, steps: seq<Step<R>>): World<R> {
    if steps == [] then Created(rules, epoch)
    else Extend(After(rules, epoch, steps[..|steps| - 1]), steps[|steps| - 1])
  }

  ghost predicate IsRun<R>(rules: Rules<R>, epoch: Time, steps: seq<Step<R>>) {
    steps == [] ||
    var init, step := steps[..|steps| - 1], steps[|steps| - 1];
    var w := After(rules, epoch, init);
    && IsRun(rules, epoch, init)
    && Shaped(rules, w.status, step) && TimerShaped(rules, w.status, step) && Timely(w.clock, step)
  }

  lemma RunSnoc<R>(rules: Rules<R>, epoch: Time, steps: seq<Step<R>>, step: Step<R>)
    ensures After(rules, epoch, steps + [step]) == Extend(After(rules, epoch, steps), step)
    ensures IsRun(rules, epoch, steps + [step]) <==>
              && IsRun(rules, epoch, steps)
              && var w := After(rules, epoch, steps);
                 Shaped(rules, w.status, step) && TimerShaped(rules, w.status, step) && Timely(w.clock, step)
  {
    assert (steps + [step])[..|steps|] == steps;
  }

  /* Ticks. */

  lemma {:induction false} RunIsLegal<R>(rules: Rules<R>, epoch: Time, steps: seq<Step<R>>)
    requires IsRun(rules, epoch, steps) && rules.schedule.Success?
    ensures var w := After(rules, epoch, steps);
            && Legal(rules.schedule.value, w.actions)
            && TimerOf(w.status) == TimerAfter(rules.schedule.value, w.actions)
            && (w.actions != [] ==> w.actions[|w.actions| - 1].at <= w.clock)
            && |w.produced| <= Executions(w.actions)
  {
    if steps != [] {
      var w, step := After(rules, epoch, steps[..|steps| - 1]), steps[|steps| - 1];
      RunIsLegal(rules, epoch, steps[..|steps| - 1]);
      assert (w.actions + [step.action])[..|w.actions|] == w.actions;
    }
  }

  /** Tick accounting over runs: the commits pushed or pull requests created are at most the
      executions, and these are at most one, plus the ticks since the first, plus the executions
      whose write of the next time failed or was interrupted. */
  lemma ExecutionsAreAccountedFor<R>(rules: Rules<R>, epoch: Time, steps: seq<Step<R>>)
    requires IsRun(rules, epoch, steps) && rules.schedule.Success?
    requires First(After(rules, epoch, steps).actions).Some?
    ensures var w := After(rules, epoch, steps);
            |w.produced| <= Executions(w.actions)
            <= 1 + Count(rules.schedule.value, First(w.actions).value, w.clock) + Unrescheduled(w.actions)
  {
    RunIsLegal(rules, epoch, steps);
    var w := After(rules, epoch, steps);
    TickAccounting(rules.schedule.value, w.actions);
    CountSplit(rules.schedule.value, First(w.actions).value, w.actions[|w.actions| - 1].at, w.clock);
  }

  /** Coalescing over runs: an execution whose predecessor stored its next time waited for the first
      tick after that predecessor, and accounts for every tick up to now. */
  lemma MissedTicksCoalesce<R>(rules: Rules<R>, epoch: Time, steps: seq<Step<R>>)
    requires IsRun(rules, epoch, steps) && rules.schedule.Success? && steps != []
    requires steps[|steps| - 1].action.Execute?
    requires var before := Latest(After(rules, epoch, steps[..|steps| - 1]).actions);
             before.Some? && before.value.rescheduled
    ensures var prev := Latest(After(rules, epoch, steps[..|steps| - 1]).actions).value.at;
            prev < Next(rules.schedule.value, prev) <= steps[|steps| - 1].action.at
  {
    var w, step := After(rules, epoch, steps[..|steps| - 1]), steps[|steps| - 1];
    RunIsLegal(rules, epoch, steps);
    assert (w.actions + [step.action])[..|w.actions|] == w.actions;
    ExecutionConsumesTicks(rules.schedule.value, w.actions + [step.action]);
  }

  /* History and truth. */

  function Reverse<T>(s: seq<T>): seq<T> {
    if s == [] then [] else [s[|s| - 1]] + Reverse(s[..|s| - 1])
  }

  // A Done record carries a result that exists; any other record carries none.
  ghost predicate Truthful<R>(none: R, produced: seq<R>, r: Record<R>) {
    if r.phase == Done then r.result in produced else r.result == none
  }

  ghost predicate AllTruthful<R>(none: R, produced: seq<R>, records: seq<Record<R>>) {
    forall i :: 0 <= i < |records| ==> Truthful(none, produced, records[i])
  }

  ghost predicate Sorted<R>(recorded: seq<Record<R>>, clock: Time) {
    && (forall i, j :: 0 <= i < j < |recorded| ==> recorded[i].time <= recorded[j].time)
    && (forall i :: 0 <= i < |recorded| ==> recorded[i].time <= clock)
  }

  ghost predicate HeadAgrees<R>(none: R, s: Status<R>, recorded: seq<Record<R>>) {
    if recorded == [] then s.result == none && s.phase != Done
    else
      var last := recorded[|recorded| - 1];
      s.result == last.result && (s.phase == Done ==> last.phase == Done)
  }

  /** What holds after every run. The stored history is the newest part of the reversed log of
      recorded executions; the log is in order of time and truthful; the status carries the result
      of the latest record; and the REST entries are still those of a new resource. */
  ghost predicate Consistent<R>(rules: Rules<R>, w: World<R>) {
    && w.status.history == Truncate(Reverse(w.recorded), rules.limit)
    && Sorted(w.recorded, w.clock)
    && AllTruthful(rules.none, w.produced, w.recorded)
    && HeadAgrees(rules.none, w.status, w.recorded)
    && w.status.restStatuses == []
  }

  lemma StaysTruthful<R>(none: R, produced: seq<R>, recorded: seq<Record<R>>, more: seq<R>, r: seq<Record<R>>)
    requires AllTruthful(none, produced, recorded)
    requires forall i :: 0 <= i < |r| ==> if r[i].phase == Done then more == [r[i].result] else r[i].result == none
    ensures AllTruthful(none, produced + more, recorded + r)
  {
    forall i | 0 <= i < |recorded + r| ensures Truthful(none, produced + more, (recorded + r)[i]) {
      assert i < |recorded| ==> Truthful(none, produced, recorded[i]);
    }
  }

  lemma StaysNewest<T>(recorded: seq<T>, r: T, limit: nat)
    ensures Truncate([r] + Truncate(Reverse(recorded), limit), limit) == Truncate(Reverse(recorded + [r]), limit)
  {
    assert (recorded + [r])[..|recorded|] == recorded;
    var reversed := Reverse(recorded);
    assert Truncate([r] + Truncate(reversed, limit), limit) == Truncate([r] + reversed, limit);
  }

  lemma StaysSorted<R>(recorded: seq<Record<R>>, clock: Time, r: Record<R>, end: Time)
    requires Sorted(recorded, clock) && clock <= r.time <= end
    ensures Sorted(recorded + [r], end)
  {
  }

  lemma ExtendConsistent<R>(rules: Rules<R>, w: World<R>, step: Step<R>)
    requires Consistent(rules, w) && Shaped(rules, w.status, step) && Timely(w.clock, step)
    ensures Consistent(rules, Extend(w, step))
  {
    StaysTruthful(rules.none, w.produced, w.recorded, step.produced, step.recorded);
    if step.recorded == [] {
      assert w.recorded + step.recorded == w.recorded;
    } else {
      var r := step.recorded[0];
      StaysNewest(w.recorded, r, rules.limit);
      StaysSorted(w.recorded, w.clock, r, step.end);
      assert step.recorded == [r];
      assert HeadAgrees(rules.none, step.status, w.recorded + [r]);
    }
  }

  lemma {:induction false} RunsAreConsistent<R>(rules: Rules<R>, epoch: Time, steps: seq<Step<R>>)
    requires IsRun(rules, epoch, steps)
    ensures Consistent(rules, After(rules, epoch, steps))
  {
    if steps != [] {
      RunsAreConsistent(rules, epoch, steps[..|steps| - 1]);
      ExtendConsistent(rules, After(rules, epoch, steps[..|steps| - 1]), steps[|steps| - 1]);
    }
  }

  lemma {:induction false} ReverseAt<T>(s: seq<T>)
    ensures |Reverse(s)| == |s|
    ensures forall i :: 0 <= i < |s| ==> Reverse(s)[i] == s[|s| - 1 - i]
  {
    if s != [] {
      ReverseAt(s[..|s| - 1]);
    }
  }

  lemma NewestFirst<R>(none: R, produced: seq<R>, recorded: seq<Record<R>>, clock: Time, limit: nat)
    requires Sorted(recorded, clock) && AllTruthful(none, produced, recorded)
    ensures var history := Truncate(Reverse(recorded), limit);
            && |history| == (if |recorded| < limit then |recorded| else limit)
            && (forall i :: 0 <= i < |history| ==> history[i] == recorded[|recorded| - 1 - i])
            && (forall i, j :: 0 <= i < j < |history| ==> history[i].time >= history[j].time)
            && AllTruthful(none, produced, history)
  {
    ReverseAt(recorded);
    var history := Truncate(Reverse(recorded), limit);
    assert forall i :: 0 <= i < |history| ==> history[i] == recorded[|recorded| - 1 - i];
  }

  // Right after a record is stored the status is that of its head.
  lemma HeadIsShown<R>(rules: Rules<R>, epoch: Time, steps: seq<Step<R>>)
    requires IsRun(rules, epoch, steps) && steps != [] && steps[|steps| - 1].recorded != [] && rules.limit > 0
    ensures var s := After(rules, epoch, steps).status;
            && s.history != []
            && s.phase == s.history[0].phase && s.message == s.history[0].message && s.result == s.history[0].result
  {
    hide TimerShaped, Timely;
  }

  /** What a reader of the status may rely on after any run: the history is the latest of all records
      stored, as many as its limit allows, newest first; none of its entries claims a result that does not
      exist, and neither does a Done phase; right after a record is stored, phase, message and result are
      those of its head. */
  lemma StatusIsTruthful<R>(rules: Rules<R>, epoch: Time, steps: seq<Step<R>>)
    requires IsRun(rules, epoch, steps)
    ensures var w := After(rules, epoch, steps);
            && |w.status.history| == (if |w.recorded| < rules.limit then |w.recorded| else rules.limit)
            && (forall i :: 0 <= i < |w.status.history| ==> w.status.history[i] == w.recorded[|w.recorded| - 1 - i])
            && (forall i, j :: 0 <= i < j < |w.status.history| ==> w.status.history[i].time >= w.status.history[j].time)
            && AllTruthful(rules.none, w.produced, w.status.history)
            && (w.status.phase == Done ==> w.status.result in w.produced)
            && (steps != [] && steps[|steps| - 1].recorded != [] && rules.limit > 0 ==>
                 && w.status.history != []
                 && var head := w.status.history[0];
                    w.status.phase == head.phase && w.status.message == head.message && w.status.result == head.result)
  {
    hide IsRun, Shaped, Reverse, Truncate, Sorted;
    if steps != [] && steps[|steps| - 1].recorded != [] && rules.limit > 0 {
      HeadIsShown(rules, epoch, steps);
    }
    RunsAreConsistent(rules, epoch, steps);
    var w := After(rules, epoch, steps);
    NewestFirst(rules.none, w.produced, w.recorded, w.clock, rules.limit);
    if w.status.phase == Done {
      assert Truthful(rules.none, w.produced, w.recorded[|w.recorded| - 1]);
    }
  }
}
