/** The scheduled PullRequest: one reconcile as a function of what it learns from outside, and the
    handler that performs it. It has no circuit breaker, and it writes the record before the next
    time, ignoring whether either write is applied. */
module ScheduledPullRequest {
  import opened Wrappers
  import opened Api
  import opened Ticks
  import opened StatusServer
  import opened StatusHelpers
  import opened RestApis
  import opened Worktree
  import opened Forge
  import opened ScheduleGate
  import opened ScheduledRuns

  datatype Spec = Spec(
    schedule: Result<Schedule, string>,
    apis: seq<RestApi>,
    maxHistory: Option<nat>,
    job: PrJob)

  function RulesOf(spec: Spec): Rules<PrRef> {
    Rules(spec.schedule, Limit(spec.maxHistory), NO_PR)
  }

  datatype Env = Env(
    entry: Entry,
    xs: seq<Exchange>,
    auth: Option<string>,
    forge: PrLearned,
    record: Attempt,
    next: Attempt,
    end: Time)

  const RUNNING := "Processing scheduled pull request"

  function Reconcile(spec: Spec, s: Status<PrRef>, env: Env): Step<PrRef>
    requires |env.xs| == |spec.apis|
  {
    match Enter(spec.schedule, s, RUNNING, env.entry)
    case Stop(t, outcome, action, writes) => Step(t, outcome, action, writes, [], [], env.entry.end)
    case Go(t, sched) => Proceed(spec, sched, t, env)
  }

  function Proceed(spec: Spec, sched: Schedule, s: Status<PrRef>, env: Env): Step<PrRef>
    requires |env.xs| == |spec.apis|
  {
    if spec.apis == [] then Deliver(spec, sched, s, env)
    else
      match CheckAll(spec.apis, s.restStatuses, env.xs, None).1
      case Broken(m) => Conclude(spec, sched, s, NO_PR, Failed, "REST API condition check failed: " + m, env)
      case NotMet => Conclude(spec, sched, s, NO_PR, Pending, "REST API conditions not met", env)
      case Met => Deliver(spec, sched, s, env)
  }

  // The REST entries that the files of this reconcile are built from.
  function Entries(spec: Spec, s: Status<PrRef>, env: Env): seq<RestStatus>
    requires |env.xs| == |spec.apis|
  {
    BuiltFrom(spec.apis, s.restStatuses, env.xs, None)
  }

  // A crash leaves what was stored when the execution started, and nothing to record.
  function Deliver(spec: Spec, sched: Schedule, s: Status<PrRef>, env: Env): Step<PrRef>
    requires |env.xs| == |spec.apis|
  {
    match Delivered(env.auth, Creation(spec.job, Entries(spec, s, env), env.forge))
    case None => Step(s, Outcome(0, true), Execute(env.entry.now, false), true, [], [], env.end)
    case Some((pr, phase, message)) => Conclude(spec, sched, s, pr, phase, message, env)
  }

  // What there is to record about credentials and creation, unless it crashed.
  function Delivered(auth: Option<string>, made: Made): Option<(PrRef, Phase, string)> {
    if auth.Some? then Some((NO_PR, Failed, "Authentication failed: " + auth.value))
    else
      match made
      case Opened(pr) => Some((pr, Done, "Pull request created successfully"))
      case Refused(m) => Some((NO_PR, Failed, "Pull request creation failed: " + m))
      case Crashed => None
  }

  // Does this reconcile get to the creation of a pull request?
  predicate Creates(spec: Spec, s: Status<PrRef>, env: Env)
    requires |env.xs| == |spec.apis|
  {
    Enter(spec.schedule, s, RUNNING, env.entry).Go? && Delivers(spec, s, env)
  }

  predicate Delivers(spec: Spec, s: Status<PrRef>, env: Env)
    requires |env.xs| == |spec.apis|
  {
    (spec.apis == [] || CheckAll(spec.apis, s.restStatuses, env.xs, None).1.Met?) && env.auth.None?
  }

  function Conclude(spec: Spec, sched: Schedule, s: Status<PrRef>, pr: PrRef, phase: Phase, message: string, env: Env)
    : Step<PrRef>
  {
    Finish(spec, sched, s, pr, phase, message, env.entry.now, env.record, env.next, env.end)
  }

  function Finish(spec: Spec, sched: Schedule, s: Status<PrRef>, pr: PrRef, phase: Phase, message: string,
                  now: Time, record: Attempt, next: Attempt, end: Time): Step<PrRef>
  {
    var n := Next(sched, now);
    var r := if record.Applied? then [Record(record.at, pr, phase, message)] else [];
    var recorded := if r == [] then s else WithExecution(s, s, r[0], None, Limit(spec.maxHistory));
    Step(if next.Applied? then recorded.(nextScheduled := Some(n)) else recorded,
         Outcome(if phase == Done then ClampedWait(n, end) else n - end, false),
         Execute(now, next.Applied?), true, if phase == Done then [pr] else [], r, end)
  }

  predicate InOrderFrom(start: Time, env: Env) {
    var t1 := if env.record.Applied? then env.record.at else start;
    start <= t1 <= (if env.next.Applied? then env.next.at else t1) <= env.end
  }

  predicate InOrder(clock: Time, env: Env) {
    EntryInOrder(clock, env.entry) && InOrderFrom(env.entry.end, env)
  }

  // Is every write that this execution calls for applied? A crash calls for none.
  predicate RunUnlost(step: Step<PrRef>, env: Env) {
    step.action.Execute? && !step.outcome.failed ==> env.record.Applied? && env.next.Applied?
  }

  /* The handler. */

  method FinishExecution(server: Server<PrRef>, res: Resource<PrRef>, spec: Spec, sched: Schedule,
                         pr: PrRef, phase: Phase, message: string, now: Time)
    returns (outcome: Outcome, ghost record: Attempt, ghost next: Attempt, ghost end: Time)
    requires Current(server, res)
    modifies server, res
    ensures server.Valid() && server.updates <= old(server.updates) + 2 * MAX_RETRIES
    ensures old(server.failures) + (if next.Lost? || record.Lost? then 1 else 0) <= server.failures
    ensures var t1 := if record.Applied? then record.at else old(server.clock);
            old(server.clock) <= t1 <= (if next.Applied? then next.at else t1) <= end == server.clock
    ensures var step := Finish(spec, sched, old(server.status), pr, phase, message, now, record, next, end);
            server.status == step.status && outcome == step.outcome
  {
    var lost, _ := RecordExecution(server, res, pr, phase, message, None, Limit(spec.maxHistory));
    record := if lost.None? then Applied(server.clock) else Lost;
    var n := Next(sched, now);
    var unmoved, _ := UpdateNextScheduledTime(server, res, n);
    next := if unmoved.None? then Applied(server.clock) else Lost;
    var until := server.Now();
    end := until;
    outcome := Outcome(if phase == Done then ClampedWait(n, until) else n - until, false);
  }

  // What a reconcile did to the hosted repository: what PrLearned tells of, if it got that far.
  ghost predicate HubMoved(spec: Spec, entries: seq<RestStatus>, env: Env, delivers: bool, prs: seq<PrRef>,
                           default: string, before: map<string, Tree>, after: map<string, Tree>,
                           pulls: seq<Pull>, more: seq<Pull>)
  {
    && default in before
    && (if delivers then HeadMoved(spec.job, entries, env.forge, default, before, after) else after == before)
    && more == pulls + Pulls(prs, entries)
  }

  /** Credentials and creation. */
  method RunCreation(hub: Hub, job: PrJob, entries: seq<RestStatus>)
    returns (told: Option<(PrRef, Phase, string)>, ghost auth: Option<string>, ghost forge: PrLearned)
    requires hub.default in hub.branches
    modifies hub
    ensures told == Delivered(auth, Creation(job, entries, forge))
    ensures hub.default in hub.branches
    ensures auth.Some? ==> hub.branches == old(hub.branches)
    ensures auth.None? ==> HeadMoved(job, entries, forge, hub.default, old(hub.branches), hub.branches)
    ensures hub.pulls == old(hub.pulls)
                         + if told.Some? && told.value.1 == Done then [Pull(told.value.0, entries)] else []
  {
    hide Creation, HeadMoved;
    forge := NOTHING_MADE;
    var missing: Option<string> :| true;
    auth := missing;
    if missing.Some? {
      told := Some((NO_PR, Failed, "Authentication failed: " + missing.value));
      return;
    }
    var made, learned := CreatePullRequest(hub, job, entries);
    forge := learned;
    match made {
      case Opened(pr) => told := Some((pr, Done, "Pull request created successfully"));
      case Refused(m) => told := Some((NO_PR, Failed, "Pull request creation failed: " + m));
      case Crashed => told := None;
    }
  }

  /** Credentials, creation and the writes that tell of it, once the REST conditions are out of the way. */
  method RunDelivery(server: Server<PrRef>, res: Resource<PrRef>, hub: Hub, spec: Spec, sched: Schedule,
                     now: Time, ghost known: Env)
    returns (outcome: Outcome, ghost env: Env)
    requires Current(server, res) && hub.default in hub.branches && known.entry.now == now
    requires |known.xs| == |spec.apis| && res.status.restStatuses == Entries(spec, server.status, known)
    modifies server, res, hub
    ensures server.Valid() && env.end == server.clock && server.updates <= old(server.updates) + 2 * MAX_RETRIES
    ensures InOrderFrom(old(server.clock), env) && old(server.failures) <= server.failures
    ensures env == known.(auth := env.auth, forge := env.forge, record := env.record, next := env.next, end := env.end)
    ensures hub.default in hub.branches
    ensures var s := old(server.status);
            var step := Deliver(spec, sched, s, env);
            && server.status == step.status && outcome == step.outcome
            && (server.failures == old(server.failures) ==> RunUnlost(step, env))
            && HubMoved(spec, Entries(spec, s, env), env, env.auth.None?, step.produced, hub.default,
                        old(hub.branches), hub.branches, old(hub.pulls), hub.pulls)
  {
    hide BuiltFrom, Creation, HeadMoved, WithExecution, Next, ClampedWait, Limit;
    var told, auth, forge := RunCreation(hub, spec.job, res.status.restStatuses);
    ghost var record, next, end := Lost, Lost, server.clock;
    outcome := Outcome(0, true);
    if told.Some? {
      var (pr, phase, message) := told.value;
      outcome, record, next, end := FinishExecution(server, res, spec, sched, pr, phase, message, now);
    }
    env := known.(auth := auth, forge := forge, record := record, next := next, end := end);
  }

  /** handleScheduledPullRequest from the moment the start is persisted. */
  method ExecuteRunning(server: Server<PrRef>, res: Resource<PrRef>, hub: Hub, spec: Spec, sched: Schedule,
                        now: Time, ghost known: Env)
    returns (outcome: Outcome, ghost env: Env)
    requires server.Valid() && !server.foreign && res.status == server.status && hub.default in hub.branches
    requires known.entry.now == now && |known.xs| == |spec.apis|
    modifies server, res, hub
    ensures server.Valid() && env.end == server.clock && server.updates <= old(server.updates) + 2 * MAX_RETRIES
    ensures InOrderFrom(old(server.clock), env) && old(server.failures) <= server.failures
    ensures env.entry == known.entry && |env.xs| == |spec.apis|
    ensures hub.default in hub.branches
    ensures var s := old(server.status);
            var step := Proceed(spec, sched, s, env);
            && server.status == step.status && outcome == step.outcome
            && (server.failures == old(server.failures) ==> RunUnlost(step, env))
            && HubMoved(spec, Entries(spec, s, env), env, Delivers(spec, s, env), step.produced, hub.default,
                        old(hub.branches), hub.branches, old(hub.pulls), hub.pulls)
  {
    hide CheckAll, Deliver, HeadMoved, WithExecution, Next, ClampedWait, Limit;
    ghost var xs := known.xs;
    if |spec.apis| > 0 {
      var verdict;
      verdict, xs := CheckRestApis(server, res, spec.apis, None);
      if !verdict.Met? {
        var phase, message := Pending, "REST API conditions not met";
        if verdict.Broken? {
          phase, message := Failed, "REST API condition check failed: " + verdict.message;
        }
        ghost var record, next, end := Lost, Lost, server.clock;
        outcome, record, next, end := FinishExecution(server, res, spec, sched, NO_PR, phase, message, now);
        env := known.(xs := xs, record := record, next := next, end := end);
        return;
      }
    }
    outcome, env := RunDelivery(server, res, hub, spec, sched, now, known.(xs := xs));
  }

  /** handleScheduledPullRequest: the stored status, the pushed branch, the pull request and the requeue
      are those of Reconcile for what the reconcile learned on the way; where Reconcile asks for no status
      update, none is sent; and a write is lost only if the server answered with an error. */
  method HandleScheduled(server: Server<PrRef>, res: Resource<PrRef>, hub: Hub, spec: Spec, suspend: bool)
    returns (outcome: Outcome, ghost env: Env)
    requires server.Valid() && !server.foreign && res.status == server.status && hub.default in hub.branches
    modifies server, res, hub
    ensures server.Valid() && InOrder(old(server.clock), env) && env.end == server.clock
    ensures env.entry.suspend == suspend && |env.xs| == |spec.apis|
    ensures server.updates <= old(server.updates) + 3 * MAX_RETRIES
    ensures hub.default in hub.branches
    ensures var s := old(server.status);
            var step := Reconcile(spec, s, env);
            && server.status == step.status && outcome == step.outcome
            && (!step.writes ==> server.log == old(server.log) && server.updates == old(server.updates))
            && (server.failures == old(server.failures) ==>
                 Unlost(spec.schedule, s, env.entry) && RunUnlost(step, env))
            && HubMoved(spec, Entries(spec, s, env), env, Creates(spec, s, env), step.produced, hub.default,
                        old(hub.branches), hub.branches, old(hub.pulls), hub.pulls)
  {
    hide Enter, Proceed, CheckAll, BuiltFrom, HeadMoved;
    var stop, now, entry := PassGate(server, res, spec.schedule, suspend, RUNNING);
    ghost var clock, started := server.clock, server.status;
    env := Env(entry, seq(|spec.apis|, _ => Exchange(NotSent(""), clock)), None, NOTHING_MADE, Lost, Lost, clock);
    GateShape(spec.schedule, old(server.status), RUNNING, entry);
    if stop.Some? {
      return stop.value, env;
    }
    outcome, env := ExecuteRunning(server, res, hub, spec, spec.schedule.value, now, env);
    ProceedShape(spec, spec.schedule.value, started, env);
  }

  /* How an execution ends, from what came back alone. */

  ghost predicate Fails(spec: Spec, s: Status<PrRef>, env: Env)
    requires |env.xs| == |spec.apis|
  {
    PrMustFail(spec.job, spec.apis, s.restStatuses, env.xs, env.auth, env.forge)
  }

  ghost predicate HoldsOff(spec: Spec, s: Status<PrRef>, env: Env)
    requires |env.xs| == |spec.apis|
  {
    PrMustWait(spec.apis, s.restStatuses, env.xs)
  }

  ghost predicate IsCrash(spec: Spec, s: Status<PrRef>, env: Env)
    requires |env.xs| == |spec.apis|
  {
    MustCrash(spec.job, spec.apis, s.restStatuses, env.xs, env.auth, env.forge)
  }

  // Is there a record? Not after a crash.
  ghost predicate Records(spec: Spec, s: Status<PrRef>, env: Env)
    requires |env.xs| == |spec.apis|
  {
    env.record.Applied? && !IsCrash(spec, s, env)
  }

  ghost function PhaseFor(spec: Spec, s: Status<PrRef>, env: Env): Phase
    requires |env.xs| == |spec.apis|
  {
    if Fails(spec, s, env) then Failed else if HoldsOff(spec, s, env) then Pending else Done
  }

  // What an execution of a status leaves, creates and records.
  ghost predicate Ended(spec: Spec, sched: Schedule, s: Status<PrRef>, env: Env, step: Step<PrRef>)
    requires |env.xs| == |spec.apis|
  {
    var opens := !Fails(spec, s, env) && !HoldsOff(spec, s, env) && !IsCrash(spec, s, env);
    && step.action.Execute? && (step.outcome.failed <==> IsCrash(spec, s, env))
    && (opens ==> env.forge.answer.Success?)
    && (!step.outcome.failed ==>
         var wait := Next(sched, env.entry.now) - env.end;
         step.outcome.requeueAfter == if opens && wait < MINUTE then MINUTE else wait)
    && var pr := if opens then env.forge.answer.value else NO_PR;
       && step.produced == (if opens then [pr] else [])
       && if Records(spec, s, env) then
            && |step.recorded| == 1
            && var r := step.recorded[0];
               && r.phase == step.status.phase == PhaseFor(spec, s, env)
               && r.result == step.status.result == pr
               && r.time == env.record.at && step.status.lastSync == Some(r.time)
          else
            step.recorded == [] && step.status.phase == s.phase && step.status.history == s.history
  }

  lemma ProceedEnds(spec: Spec, sched: Schedule, s: Status<PrRef>, env: Env)
    requires |env.xs| == |spec.apis|
    ensures Ended(spec, sched, s, env, Proceed(spec, sched, s, env))
  {
    hide CheckAll, Creation, BuiltFrom, PrMustFail, PrMustWait, MustCrash, Next, Truncate;
    PrAttemptIs(spec.job, spec.apis, s.restStatuses, env.xs, env.auth, env.forge);
  }

  /** Every execution tells the truth about how it went. It records and stores Failed exactly when the check
      broke or, with all conditions met, credentials are missing or there is no pull request and no panic;
      Pending exactly when every answer could be judged and some condition is not met; and Created, with the
      one pull request it opened, otherwise. Without the record, as after a panic, it stays Running. */
  lemma ExecutionEnds(spec: Spec, s: Status<PrRef>, env: Env)
    requires |env.xs| == |spec.apis| && spec.schedule.Success?
    requires !env.entry.suspend && IsTime(s, env.entry.now) && env.entry.start.Applied?
    ensures var step := Reconcile(spec, s, env);
            && Ended(spec, spec.schedule.value, s.(phase := Running), env, step)
            && step.action.at == env.entry.now
            && (step.recorded != [] ==>
                 && (step.recorded[0].phase == Failed <==> Fails(spec, s, env))
                 && (step.recorded[0].phase == Pending <==> HoldsOff(spec, s, env)))
  {
    hide Enter, Proceed, AnyBreaks, AllPass, BuiltFrom, Opens, Panics;
    StartsIff(spec.schedule, s, RUNNING, env.entry);
    GateShape(spec.schedule, s, RUNNING, env.entry);
    var started := Enter(spec.schedule, s, RUNNING, env.entry).status;
    ProceedEnds(spec, spec.schedule.value, started, env);
    ProceedShape(spec, spec.schedule.value, started, env);
  }

  /* What one reconcile does, whatever the environment. */

  ghost predicate RunningShape(spec: Spec, sched: Schedule, s: Status<PrRef>, env: Env, step: Step<PrRef>) {
    && Shaped(RulesOf(spec), s, step)
    && step.end == env.end && step.action.Execute? && step.action.at == env.entry.now && step.writes
    && (!step.outcome.failed ==> Delays(Next(sched, env.entry.now), step))
    && (forall r :: r in step.recorded ==> env.record.Applied? && r.time == env.record.at)
    && step.status.lastScheduled == s.lastScheduled
    && step.status.nextScheduled
       == if step.action.rescheduled then Some(Next(sched, env.entry.now)) else s.nextScheduled
  }

  lemma ConcludeShape(spec: Spec, sched: Schedule, s: Status<PrRef>, pr: PrRef, phase: Phase, message: string, env: Env)
    requires phase == Done || pr == NO_PR
    ensures var step := Conclude(spec, sched, s, pr, phase, message, env);
            && RunningShape(spec, sched, s, env, step)
            && !step.outcome.failed && (step.action.rescheduled <==> env.next.Applied?)
  {
  }

  lemma DeliverShape(spec: Spec, sched: Schedule, s: Status<PrRef>, env: Env)
    requires |env.xs| == |spec.apis|
    ensures var step := Deliver(spec, sched, s, env);
            && RunningShape(spec, sched, s, env, step)
            && (step.action.rescheduled <==> env.next.Applied? && !step.outcome.failed)
            && (step.outcome.failed <==> Crashes(spec, s, env))
  {
    hide Creation, Entries;
    var told := Delivered(env.auth, Creation(spec.job, Entries(spec, s, env), env.forge));
    if told.Some? {
      ConcludeShape(spec, sched, s, told.value.0, told.value.1, told.value.2, env);
    }
  }

  // Does the URL parser panic once the branch is pushed?
  predicate Crashes(spec: Spec, s: Status<PrRef>, env: Env)
    requires |env.xs| == |spec.apis|
  {
    env.auth.None? && Creation(spec.job, Entries(spec, s, env), env.forge).Crashed?
  }

  lemma ProceedShape(spec: Spec, sched: Schedule, s: Status<PrRef>, env: Env)
    requires |env.xs| == |spec.apis|
    ensures var step := Proceed(spec, sched, s, env);
            && RunningShape(spec, sched, s, env, step)
            && (step.action.rescheduled <==> env.next.Applied? && !step.outcome.failed)
            && (step.outcome.failed <==> Delivers(spec, s, env) && Crashes(spec, s, env))
  {
    hide CheckAll, Crashes, Deliver;
    if spec.apis == [] {
      DeliverShape(spec, sched, s, env);
      CrashesDelivers(spec, s, env);
    } else {
      match CheckAll(spec.apis, s.restStatuses, env.xs, None).1 {
        case Broken(m) => ConcludeShape(spec, sched, s, NO_PR, Failed, "REST API condition check failed: " + m, env);
        case NotMet => ConcludeShape(spec, sched, s, NO_PR, Pending, "REST API conditions not met", env);
        case Met =>
          DeliverShape(spec, sched, s, env);
          CrashesDelivers(spec, s, env);
      }
    }
  }

  lemma CrashesDelivers(spec: Spec, s: Status<PrRef>, env: Env)
    requires |env.xs| == |spec.apis|
    ensures Crashes(spec, s, env) ==> env.auth.None?
  {
  }

  /** Every PullRequest reconcile is a step of a scheduled run, so tick accounting, coalescing, the
      history and truth hold for PullRequests as they do for GitCommits. An execution that leaves the
      next time unmoved has lost the write of it or was ended by a crash, and only a crash fails. */
  lemma ReconcileIsShaped(spec: Spec, s: Status<PrRef>, env: Env, clock: Time)
    requires |env.xs| == |spec.apis| && InOrder(clock, env)
    ensures var step := Reconcile(spec, s, env);
            && Shaped(RulesOf(spec), s, step) && TimerShaped(RulesOf(spec), s, step)
            && Timely(clock, step) && step.end <= env.end
            && (step.action.Execute? ==>
                 && (step.action.rescheduled <==> env.next.Applied? && !step.outcome.failed)
                 && (step.outcome.failed <==> Creates(spec, s, env) && Crashes(spec, s, env)))
  {
    hide Proceed, CheckAll, Creation, BuiltFrom;
    GateShape(spec.schedule, s, RUNNING, env.entry);
    match Enter(spec.schedule, s, RUNNING, env.entry) {
      case Stop(_, _, _, _) =>
      case Go(t, sched) => ProceedShape(spec, sched, t, env);
    }
  }
}
