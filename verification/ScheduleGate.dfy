/** The part of a scheduled reconcile that GitCommit and PullRequest have in common: suspension, the
    schedule, and the decision to execute now or to wait. */
module ScheduleGate {
  import opened Wrappers
  import opened Api
  import opened Ticks
  import opened StatusServer
  import opened StatusHelpers

  // What is learned on the way to the decision. The first write is Running, or what is reported
  // instead of executing; a waiting reconcile may write the next time.
  datatype Entry = Entry(suspend: bool, now: Time, start: Attempt, wait: Attempt, end: Time)

  // Stop ends the reconcile, after a status update was asked for or not; Go hands over the status in
  // which the start has been persisted.
  datatype Gate<R> =
    | Stop(status: Status<R>, outcome: Outcome, action: Action, writes: bool)
    | Go(status: Status<R>, sched: Schedule)

  function TimerOf<R>(s: Status<R>): Timer {
    Timer(s.lastScheduled, s.nextScheduled)
  }

  function Enter<R>(schedule: Result<Schedule, string>, s: Status<R>, running: string, e: Entry): Gate<R> {
    if e.suspend then Report(s, e, Pending, "Execution suspended", Outcome(MINUTE, false))
    else
      match schedule
      case Failure(m) => Report(s, e, Failed, "Invalid cron schedule: " + m, Outcome(0, true))
      case Success(sched) =>
        if !Due(TimerOf(s), e.now) then Await(sched, s, e)
        else if e.start.Lost? then GiveUp(s, e)
        else Go(WithSchedule(s.(lastScheduled := Some(e.now)), s, Running, running, e.start.at), sched)
  }

  function GiveUp<R>(s: Status<R>, e: Entry): Gate<R> {
    Stop(s, Outcome(0, true), Skip(e.now), true)
  }

  function Report<R>(s: Status<R>, e: Entry, phase: Phase, message: string, outcome: Outcome): Gate<R> {
    match e.start
    case Lost => GiveUp(s, e)
    case Applied(at) => Stop(WithSchedule(s, s, phase, message, at), outcome, Skip(e.now), true)
  }

  function Await<R>(sched: Schedule, s: Status<R>, e: Entry): Gate<R> {
    var n := Next(sched, e.now);
    var outcome := Outcome(ClampedWait(n, e.end), false);
    if s.nextScheduled == Some(n) then Stop(s, outcome, Skip(e.now), false)
    else if e.wait.Lost? then GiveUp(s, e)
    else Stop(s.(nextScheduled := Some(n)), outcome, Wait(e.now), true)
  }

  // Is every write that this entry calls for applied?
  predicate Unlost<R>(schedule: Result<Schedule, string>, s: Status<R>, e: Entry) {
    if e.suspend || schedule.Failure? || Due(TimerOf(s), e.now) then e.start.Applied?
    else s.nextScheduled == Some(Next(schedule.value, e.now)) || e.wait.Applied?
  }

  // The instants in the order they are read.
  predicate EntryInOrder(start: Time, e: Entry) {
    var t0 := if e.start.Applied? then e.start.at else e.now;
    start <= e.now <= t0 <= (if e.wait.Applied? then e.wait.at else t0) <= e.end
  }

  /** handleScheduledGitCommit and handleScheduledPullRequest up to the point where the start is
      persisted. The reconciler is the only writer and has just read the object. */
  method PassGate<R(0)>(server: Server<R>, res: Resource<R>, schedule: Result<Schedule, string>, suspend: bool,
                        running: string)
    returns (stop: Option<Outcome>, now: Time, ghost e: Entry)
    requires server.Valid() && !server.foreign && res.status == server.status
    modifies server, res
    ensures server.Valid() && e.end == server.clock && e.suspend == suspend && e.now == now
    ensures EntryInOrder(old(server.clock), e)
    ensures server.updates <= old(server.updates) + MAX_RETRIES && old(server.failures) <= server.failures
    ensures server.failures == old(server.failures) ==> Unlost(schedule, old(server.status), e)
    ensures match Enter(schedule, old(server.status), running, e)
            case Stop(s, outcome, _, writes) =>
              && server.status == s && stop == Some(outcome)
              && (!writes ==> server.log == old(server.log) && server.updates == old(server.updates))
            case Go(s, sched) => res.status == server.status == s && stop == None && schedule == Success(sched)
  {
    now := server.clock;
    e := Entry(suspend, now, Lost, Lost, now);
    if suspend || schedule.Failure? {
      var phase, message := Pending, "Execution suspended";
      if !suspend {
        phase, message := Failed, "Invalid cron schedule: " + schedule.error;
      }
      var err, _ := UpdateScheduleStatus(server, res, phase, message);
      e := e.(start := if err.None? then Applied(server.clock) else Lost, end := server.clock);
      if err.Some? {
        return Some(Outcome(0, true)), now, e;
      }
      return Some(if suspend then Outcome(MINUTE, false) else Outcome(0, true)), now, e;
    }
    now := server.Now();
    e := Entry(suspend, now, Lost, Lost, now);
    var n := Next(schedule.value, now);
    if !Due(TimerOf(res.status), now) {
      if res.status.nextScheduled != Some(n) {
        var err, _ := UpdateNextScheduledTime(server, res, n);
        e := e.(wait := if err.None? then Applied(server.clock) else Lost, end := server.clock);
        if err.Some? {
          return Some(Outcome(0, true)), now, e;
        }
      }
      var until := server.Now();
      e := e.(end := until);
      return Some(Outcome(ClampedWait(n, until), false)), now, e;
    }
    res.status := res.status.(lastScheduled := Some(now));
    var err, _ := UpdateScheduleStatus(server, res, Running, running);
    e := e.(start := if err.None? then Applied(server.clock) else Lost, end := server.clock);
    stop := if err.None? then None else Some(Outcome(0, true));
  }

  // Has the resource never executed, or has its stored next time come?
  predicate IsTime<R>(s: Status<R>, now: Time) {
    s.lastScheduled.None? || (s.nextScheduled.Some? && s.nextScheduled.value <= now)
  }

  /** An execution starts exactly when the resource is not suspended, its schedule parses, it has never
      executed or its stored next time has come, and the start is persisted. */
  lemma StartsIff<R>(schedule: Result<Schedule, string>, s: Status<R>, running: string, e: Entry)
    ensures Enter(schedule, s, running, e).Go? <==>
              !e.suspend && schedule.Success? && IsTime(s, e.now) && e.start.Applied?
  {
  }

  /** What else can come of a reconcile. Suspended it turns Pending and looks again in a minute; with a
      schedule that does not parse it turns Failed and errs; a lost write leaves everything and errs; and
      before its time only the next time changes. */
  lemma StopsAs<R>(schedule: Result<Schedule, string>, s: Status<R>, running: string, e: Entry)
    requires e.suspend || schedule.Failure? || !IsTime(s, e.now) || e.start.Lost?
    ensures var gate := Enter(schedule, s, running, e);
            && gate.Stop?
            && if e.suspend || schedule.Failure? then
                 if e.start.Lost? then gate.status == s && gate.outcome == Outcome(0, true)
                 else
                   && gate.status == s.(phase := if e.suspend then Pending else Failed, message := gate.status.message,
                                        lastSync := Some(e.start.at))
                   && gate.outcome == if e.suspend then Outcome(MINUTE, false) else Outcome(0, true)
               else if IsTime(s, e.now) then gate.status == s && gate.outcome == Outcome(0, true)
               else
                 var n := Next(schedule.value, e.now);
                 if s.nextScheduled != Some(n) && e.wait.Lost? then gate.status == s && gate.outcome == Outcome(0, true)
                 else
                   && gate.status == s.(nextScheduled := Some(n))
                   && gate.outcome == Outcome(if n - e.end < MINUTE then MINUTE else n - e.end, false)
  {
  }

  /** A stopped reconcile moves Last and Next as the abstract timer does and touches neither the
      history, the result nor the REST entries; a started one has persisted Last and nothing else
      of these. */
  lemma GateShape<R>(schedule: Result<Schedule, string>, s: Status<R>, running: string, e: Entry)
    ensures match Enter(schedule, s, running, e)
            case Stop(t, _, a, _) =>
              && a.at == e.now && !a.Execute?
              && t.history == s.history && t.result == s.result && t.restStatuses == s.restStatuses
              && (t.phase == Done ==> s.phase == Done)
              && (schedule.Success? ==>
                   Enabled(TimerOf(s), a) && TimerOf(t) == Advance(schedule.value, TimerOf(s), a))
            case Go(t, sched) =>
              && schedule == Success(sched) && !e.suspend && Due(TimerOf(s), e.now) && e.start.Applied?
              && TimerOf(t) == TimerOf(s).(last := Some(e.now))
              && t.history == s.history && t.result == s.result && t.restStatuses == s.restStatuses
              && t.phase == Running
  {
  }

  /** While the stored next tick is to come, a reconcile asks for no status update and waits. */
  lemma Quiescent<R>(sched: Schedule, s: Status<R>, running: string, e: Entry, t: Time)
    requires !e.suspend && s.lastScheduled.Some? && s.nextScheduled == Some(Next(sched, t))
    requires t <= e.now < Next(sched, t)
    ensures Enter(Success(sched), s, running, e)
            == Stop(s, Outcome(ClampedWait(Next(sched, t), e.end), false), Skip(e.now), false)
  {
    NextStable(sched, t, e.now);
  }

  /** After a schedule edit, one waiting reconcile whose write is applied moves the next time to the
      new schedule and nothing else; Quiescent then holds for it. */
  lemma ScheduleEditSettles<R>(sched: Schedule, s: Status<R>, running: string, e: Entry, later: Entry)
    requires !e.suspend && !Due(TimerOf(s), e.now) && e.wait.Applied?
    requires !later.suspend && e.now <= later.now < Next(sched, e.now)
    ensures Enter(Success(sched), s, running, e).Stop?
    ensures var settled := Enter(Success(sched), s, running, e).status;
            && settled == s.(nextScheduled := Some(Next(sched, e.now)))
            && Enter(Success(sched), settled, running, later).Stop?
            && Enter(Success(sched), settled, running, later).status == settled
            && !Enter(Success(sched), settled, running, later).writes
  {
    NextStable(sched, e.now, later.now);
  }

  /** Lateness. A waiting reconcile asks to be woken no earlier than the next tick it leaves stored
      and at most a minute after it (or after its own end, if it took that long); woken then, the
      resource goes on to execute as soon as its start is persisted. */
  lemma WakesWithinAMinute<R>(sched: Schedule, s: Status<R>, running: string, e: Entry, later: Entry)
    requires !e.suspend && !later.suspend && !Due(TimerOf(s), e.now)
    requires var gate := Enter(Success(sched), s, running, e);
             gate.Stop? && !gate.outcome.failed && later.now == e.end + gate.outcome.requeueAfter
    requires later.start.Applied?
    ensures var n, waiting := Next(sched, e.now), Enter(Success(sched), s, running, e).status;
            && waiting.nextScheduled == Some(n)
            && n <= later.now <= Max(n, e.end) + MINUTE
            && Enter(Success(sched), waiting, running, later).Go?
  {
  }
}
