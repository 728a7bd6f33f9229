/** The scheduled GitCommit: one reconcile as a function of what it learns from outside, and the
    handler that performs it. */
module ScheduledGitCommit {
  import opened Wrappers
  import opened Api
  import opened Ticks
  import opened StatusServer
  import opened StatusHelpers
  import opened RestApis
  import opened Worktree
  import opened ResourceRefs
  import opened GitRemote
  import opened ScheduleGate
  import opened ScheduledRuns

  datatype Spec = Spec(
    schedule: Result<Schedule, string>,  // or the parser's complaint
    apis: seq<RestApi>,
    maxHistory: Option<nat>,
    job: Job)

  function RulesOf(spec: Spec): Rules<string> {
    Rules(spec.schedule, Limit(spec.maxHistory), "")
  }

  // Everything a reconcile learns from outside.
  datatype Env = Env(
    entry: Entry,
    xs: seq<Exchange>,
    auth: Option<string>,  // why the credentials are missing, if they are
    git: Learned,
    next: Attempt,    // the write of the next time
    record: Attempt,  // the write of the execution record
    end: Time)        // when the requeue delay is computed

  const RUNNING := "Processing scheduled git commit"

  function Reconcile(spec: Spec, s: Status<string>, env: Env): Step<string>
    requires |env.xs| == |spec.apis|
  {
    match Enter(spec.schedule, s, RUNNING, env.entry)
    case Stop(t, outcome, action, writes) => Step(t, outcome, action, writes, [], [], env.entry.end)
    case Go(t, sched) => Proceed(spec, sched, t, env)
  }

  function Proceed(spec: Spec, sched: Schedule, s: Status<string>, env: Env): Step<string>
    requires |env.xs| == |spec.apis|
  {
    if spec.apis == [] then Deliver(spec, sched, s, env)
    else
      var tripped := FirstTripped(s.restStatuses);
      if tripped.Some? then ConcludeAt(spec, sched, s, Failed, LimitMessage(tripped.value), env)
      else
        match CheckAll(spec.apis, s.restStatuses, env.xs, Some(CALL_LIMIT)).1
        case Broken(m) => ConcludeAt(spec, sched, s, Failed, "REST API check failed: " + m, env)
        case NotMet => ConcludeAt(spec, sched, s, Pending, "REST API conditions not met", env)
        case Met => Deliver(spec, sched, s, env)
  }

  // The REST entries that the files of this reconcile are built from.
  function Entries(spec: Spec, s: Status<string>, env: Env): seq<RestStatus>
    requires |env.xs| == |spec.apis|
  {
    BuiltFrom(spec.apis, s.restStatuses, env.xs, Some(CALL_LIMIT))
  }

  function Deliver(spec: Spec, sched: Schedule, s: Status<string>, env: Env): Step<string>
    requires |env.xs| == |spec.apis|
  {
    if env.auth.Some? then ConcludeAt(spec, sched, s, Failed, "Authentication failed: " + env.auth.value, env)
    else
      match Delivery(spec.job, Entries(spec, s, env), env.git)
      case Failure(m) => ConcludeAt(spec, sched, s, Failed, "Git commit failed: " + m, env)
      case Success(sha) => Succeed(spec, sched, s, sha, env.entry.now, env.next, env.record, env.end)
  }

  function ConcludeAt(spec: Spec, sched: Schedule, s: Status<string>, phase: Phase, message: string, env: Env)
    : Step<string>
  {
    Conclude(spec, sched, s, phase, message, env.entry.now, env.record, env.end)
  }

  // An execution without a commit: one write stores the record and the next time together. The
  // delay is not clamped.
  function Conclude(spec: Spec, sched: Schedule, s: Status<string>, phase: Phase, message: string,
                    now: Time, record: Attempt, end: Time): Step<string>
  {
    var n := Next(sched, now);
    match record
    case Lost => Step(s, Outcome(n - end, false), Execute(now, false), true, [], [], end)
    case Applied(at) =>
      var r := Record(at, "", phase, message);
      Step(WithExecution(s, s, r, Some(n), Limit(spec.maxHistory)), Outcome(n - end, false),
           Execute(now, true), true, [], [r], end)
  }

  // A pushed commit: the next time is written first, then the record.
  function Succeed(spec: Spec, sched: Schedule, s: Status<string>, sha: string,
                   now: Time, next: Attempt, record: Attempt, end: Time): Step<string>
  {
    var n := Next(sched, now);
    var moved := s.(nextScheduled := Some(n));
    if next.Lost? then Step(s, Outcome(MINUTE, true), Execute(now, false), true, [sha], [], end)
    else
      match record
      case Lost => Step(moved, Outcome(MINUTE, true), Execute(now, true), true, [sha], [], end)
      case Applied(at) =>
        var r := Record(at, sha, Done, "Git commit completed successfully");
        Step(WithExecution(s, moved, r, None, Limit(spec.maxHistory)), Outcome(ClampedWait(n, end), false),
             Execute(now, true), true, [sha], [r], end)
  }

  // The instants of the execution in the order it reads them.
  predicate InOrderFrom(start: Time, env: Env) {
    var t1 := if env.next.Applied? then env.next.at else start;
    start <= t1 <= (if env.record.Applied? then env.record.at else t1) <= env.end
  }

  predicate InOrder(clock: Time, env: Env) {
    EntryInOrder(clock, env.entry) && InOrderFrom(env.entry.end, env)
  }

  // The write that stores the next time: the one before the record if a commit was pushed, and the
  // record itself otherwise.
  function StoresNext(step: Step<string>, env: Env): Attempt {
    if step.produced != [] then env.next else env.record
  }

  // Is every write that this execution calls for applied?
  predicate RunUnlost(step: Step<string>, env: Env) {
    step.action.Execute? ==> StoresNext(step, env).Applied? && env.record.Applied?
  }

  /* The handler. */

  method FinishWithoutCommit(server: Server<string>, res: Resource<string>, spec: Spec, sched: Schedule,
                             phase: Phase, message: string, now: Time)
    returns (outcome: Outcome, ghost record: Attempt, ghost end: Time)
    requires Current(server, res)
    modifies server, res
    ensures server.Valid() && server.updates <= old(server.updates) + MAX_RETRIES
    ensures old(server.failures) + (if record.Lost? then 1 else 0) <= server.failures
    ensures old(server.clock) <= (if record.Applied? then record.at else old(server.clock)) <= end == server.clock
    ensures var step := Conclude(spec, sched, old(server.status), phase, message, now, record, end);
            server.status == step.status && outcome == step.outcome
  {
    var n := Next(sched, now);
    var err, _ := RecordExecution(server, res, "", phase, message, Some(n), Limit(spec.maxHistory));
    record := if err.None? then Applied(server.clock) else Lost;
    var until := server.Now();
    end := until;
    outcome := Outcome(n - until, false);
  }

  method FinishWithCommit(server: Server<string>, res: Resource<string>, spec: Spec, sched: Schedule,
                          sha: string, now: Time)
    returns (outcome: Outcome, ghost next: Attempt, ghost record: Attempt, ghost end: Time)
    requires Current(server, res)
    modifies server, res
    ensures server.Valid() && server.updates <= old(server.updates) + 2 * MAX_RETRIES
    ensures old(server.failures) + (if next.Lost? || record.Lost? then 1 else 0) <= server.failures
    ensures var t1 := if next.Applied? then next.at else old(server.clock);
            old(server.clock) <= t1 <= (if record.Applied? then record.at else t1) <= end == server.clock
    ensures var step := Succeed(spec, sched, old(server.status), sha, now, next, record, end);
            server.status == step.status && outcome == step.outcome
  {
    var n := Next(sched, now);
    next, record, end := Lost, Lost, server.clock;
    var err, _ := UpdateNextScheduledTime(server, res, n);
    end := server.clock;
    if err.Some? {
      return Outcome(MINUTE, true), next, record, end;
    }
    next := Applied(server.clock);
    var failed, _ :=
      RecordExecution(server, res, sha, Done, "Git commit completed successfully", None, Limit(spec.maxHistory));
    end := server.clock;
    if failed.Some? {
      return Outcome(MINUTE, true), next, record, end;
    }
    record := Applied(server.clock);
    var until := server.Now();
    end := until;
    outcome := Outcome(ClampedWait(n, until), false);
  }

  /** Credentials, commit and push, once the REST conditions are out of the way. */
  method RunDelivery(server: Server<string>, res: Resource<string>, remote: Remote, spec: Spec, sched: Schedule,
                     now: Time, ghost known: Env)
    returns (outcome: Outcome, ghost env: Env)
    requires Current(server, res) && known.entry.now == now && remote.default in remote.branches
    requires |known.xs| == |spec.apis| && res.status.restStatuses == Entries(spec, server.status, known)
    modifies server, res, remote
    ensures server.Valid() && env.end == server.clock && server.updates <= old(server.updates) + 2 * MAX_RETRIES
    ensures InOrderFrom(old(server.clock), env) && old(server.failures) <= server.failures
    ensures env == known.(auth := env.auth, git := env.git, next := env.next, record := env.record, end := env.end)
    ensures remote.default in remote.branches
    ensures var step := Deliver(spec, sched, old(server.status), env);
            && server.status == step.status && outcome == step.outcome
            && (server.failures == old(server.failures) ==> RunUnlost(step, env))
            && Delivered(spec.job, Entries(spec, old(server.status), env), env.git, step.produced, remote.default,
                         old(remote.branches), remote.branches, old(remote.commits), remote.commits)
  {
    hide BuiltFrom, Delivery, CommittedTree, PushedBranch;
    ghost var next, record, end := Lost, Lost, server.clock;
    var auth: Option<string> :| true;
    if auth.Some? {
      outcome, record, end :=
        FinishWithoutCommit(server, res, spec, sched, Failed, "Authentication failed: " + auth.value, now);
      env := known.(auth := auth, next := Lost, record := record, end := end);
      return;
    }
    var sha, learned := PerformGitCommit(remote, spec.job, res.status.restStatuses);
    if sha.Failure? {
      outcome, record, end :=
        FinishWithoutCommit(server, res, spec, sched, Failed, "Git commit failed: " + sha.error, now);
    } else {
      outcome, next, record, end := FinishWithCommit(server, res, spec, sched, sha.value, now);
    }
    env := known.(auth := None, git := learned, next := next, record := record, end := end);
  }

  /** handleScheduledGitCommit from the moment the start is persisted. */
  method ExecuteRunning(server: Server<string>, res: Resource<string>, remote: Remote, spec: Spec, sched: Schedule,
                        now: Time, ghost known: Env)
    returns (outcome: Outcome, ghost env: Env)
    requires server.Valid() && !server.foreign && res.status == server.status && remote.default in remote.branches
    requires known.entry.now == now && |known.xs| == |spec.apis|
    modifies server, res, remote
    ensures server.Valid() && env.end == server.clock && server.updates <= old(server.updates) + 2 * MAX_RETRIES
    ensures InOrderFrom(old(server.clock), env) && old(server.failures) <= server.failures
    ensures env.entry == known.entry && |env.xs| == |spec.apis|
    ensures remote.default in remote.branches
    ensures var step := Proceed(spec, sched, old(server.status), env);
            && server.status == step.status && outcome == step.outcome
            && (server.failures == old(server.failures) ==> RunUnlost(step, env))
            && Delivered(spec.job, Entries(spec, old(server.status), env), env.git, step.produced, remote.default,
                         old(remote.branches), remote.branches, old(remote.commits), remote.commits)
  {
    hide CheckAll, Deliver, LimitMessage;
    ghost var xs, record, end := known.xs, Lost, now;
    if |spec.apis| > 0 {
      var tripped := FindTripped(res.status.restStatuses);
      if tripped.Some? {
        outcome, record, end :=
          FinishWithoutCommit(server, res, spec, sched, Failed, LimitMessage(tripped.value), now);
        env := known.(next := Lost, record := record, end := end);
        return;
      }
      var verdict;
      verdict, xs := CheckRestApis(server, res, spec.apis, Some(CALL_LIMIT));
      if !verdict.Met? {
        var phase, message := Pending, "REST API conditions not met";
        if verdict.Broken? {
          phase, message := Failed, "REST API check failed: " + verdict.message;
        }
        outcome, record, end := FinishWithoutCommit(server, res, spec, sched, phase, message, now);
        env := known.(xs := xs, next := Lost, record := record, end := end);
        return;
      }
    }
    outcome, env := RunDelivery(server, res, remote, spec, sched, now, known.(xs := xs));
  }

  /** handleScheduledGitCommit: the stored status, the pushed commit with its tree, and the requeue are
      those of Reconcile for what the reconcile learned on the way; where Reconcile asks for no status
      update, none is sent; and a write is lost only if the server answered with an error. */
  method HandleScheduled(server: Server<string>, res: Resource<string>, remote: Remote, spec: Spec, suspend: bool)
    returns (outcome: Outcome, ghost env: Env)
    requires server.Valid() && !server.foreign && res.status == server.status && remote.default in remote.branches
    modifies server, res, remote
    ensures server.Valid() && InOrder(old(server.clock), env) && env.end == server.clock
    ensures env.entry.suspend == suspend && |env.xs| == |spec.apis|
    ensures server.updates <= old(server.updates) + 3 * MAX_RETRIES
    ensures remote.default in remote.branches
    ensures var step := Reconcile(spec, old(server.status), env);
            && server.status == step.status && outcome == step.outcome
            && (!step.writes ==> server.log == old(server.log) && server.updates == old(server.updates))
            && (server.failures == old(server.failures) ==>
                 Unlost(spec.schedule, old(server.status), env.entry) && RunUnlost(step, env))
            && Delivered(spec.job, Entries(spec, old(server.status), env), env.git, step.produced, remote.default,
                         old(remote.branches), remote.branches, old(remote.commits), remote.commits)
  {
    hide Enter, Proceed, BuiltFrom, Delivery, CommittedTree, PushedBranch;
    var stop, now, entry := PassGate(server, res, spec.schedule, suspend, RUNNING);
    ghost var clock, started := server.clock, server.status;
    env := Env(entry, seq(|spec.apis|, _ => Exchange(NotSent(""), clock)), None, NOT_CLONED, Lost, Lost, clock);
    GateShape(spec.schedule, old(server.status), RUNNING, entry);
    if stop.Some? {
      return stop.value, env;
    }
    outcome, env := ExecuteRunning(server, res, remote, spec, spec.schedule.value, now, env);
    ProceedShape(spec, spec.schedule.value, started, env);
  }

  /* How an execution ends, from what came back alone. */

  ghost predicate Fails(spec: Spec, s: Status<string>, env: Env)
    requires |env.xs| == |spec.apis|
  {
    MustFail(spec.job, spec.apis, s.restStatuses, env.xs, env.auth, env.git)
  }

  ghost predicate HoldsOff(spec: Spec, s: Status<string>, env: Env)
    requires |env.xs| == |spec.apis|
  {
    MustWait(spec.apis, s.restStatuses, env.xs)
  }

  ghost predicate Commits(spec: Spec, s: Status<string>, env: Env)
    requires |env.xs| == |spec.apis|
  {
    !Fails(spec, s, env) && !HoldsOff(spec, s, env)
  }

  // Is the record stored? After a commit only if the next time was stored before.
  ghost predicate Records(spec: Spec, s: Status<string>, env: Env)
    requires |env.xs| == |spec.apis|
  {
    env.record.Applied? && (Commits(spec, s, env) ==> env.next.Applied?)
  }

  ghost function PhaseFor(spec: Spec, s: Status<string>, env: Env): Phase
    requires |env.xs| == |spec.apis|
  {
    if Fails(spec, s, env) then Failed else if HoldsOff(spec, s, env) then Pending else Done
  }

  // What an execution of a status leaves, pushes and records.
  ghost predicate Ended(spec: Spec, sched: Schedule, s: Status<string>, env: Env, step: Step<string>)
    requires |env.xs| == |spec.apis|
  {
    var sha := if Commits(spec, s, env) then env.git.delivered.value else "";
    && step.action.Execute? && step.produced == (if Commits(spec, s, env) then [sha] else [])
    && step.outcome.failed == (Commits(spec, s, env) && !Records(spec, s, env))
    && (step.outcome.failed ==> step.outcome.requeueAfter == MINUTE)
    && (!step.outcome.failed ==>
         var wait := Next(sched, env.entry.now) - env.end;
         step.outcome.requeueAfter == if Commits(spec, s, env) && wait < MINUTE then MINUTE else wait)
    && if Records(spec, s, env) then
         && |step.recorded| == 1
         && var r := step.recorded[0];
            && r.phase == step.status.phase == PhaseFor(spec, s, env)
            && r.result == step.status.result == sha
            && r.time == env.record.at && step.status.lastSync == Some(r.time)
       else
         step.recorded == [] && step.status.phase == s.phase && step.status.history == s.history
  }

  lemma ProceedEnds(spec: Spec, sched: Schedule, s: Status<string>, env: Env)
    requires |env.xs| == |spec.apis|
    ensures Ended(spec, sched, s, env, Proceed(spec, sched, s, env))
  {
    hide CheckAll, FirstTripped, Delivery, BuiltFrom, MustFail, MustWait, Halted, LimitMessage, Next, Truncate;
    AttemptIs(spec.job, spec.apis, s.restStatuses, env.xs, env.auth, env.git);
  }

  /** Every execution tells the truth about how it went. It records and stores Failed exactly when the breaker
      is tripped, the check broke, or, with all conditions met, credentials, clone, files, references, commit
      or push fail; Pending exactly when every answer could be judged and some condition is not met; and
      Committed, under the SHA of the one commit it pushed, otherwise. Without the record it stays Running. */
  lemma ExecutionEnds(spec: Spec, s: Status<string>, env: Env)
    requires |env.xs| == |spec.apis| && spec.schedule.Success?
    requires !env.entry.suspend && IsTime(s, env.entry.now) && env.entry.start.Applied?
    ensures var step := Reconcile(spec, s, env);
            && Ended(spec, spec.schedule.value, s.(phase := Running), env, step)
            && step.action.at == env.entry.now
            && (step.recorded != [] ==>
                 && (step.recorded[0].phase == Failed <==> Fails(spec, s, env))
                 && (step.recorded[0].phase == Pending <==> HoldsOff(spec, s, env)))
  {
    hide Enter, Proceed, Halted, AnyBreaks, AllPass, BuiltFrom, AllWritable, GcAllRefsWritable;
    StartsIff(spec.schedule, s, RUNNING, env.entry);
    GateShape(spec.schedule, s, RUNNING, env.entry);
    var started := Enter(spec.schedule, s, RUNNING, env.entry).status;
    ProceedEnds(spec, spec.schedule.value, started, env);
    ProceedShape(spec, spec.schedule.value, started, env);
  }

  /* What one reconcile does, whatever the environment. */

  // The part of an execution that follows its start.
  ghost predicate RunningShape(spec: Spec, sched: Schedule, s: Status<string>, env: Env, step: Step<string>) {
    && Shaped(RulesOf(spec), s, step)
    && step.end == env.end && step.action.Execute? && step.action.at == env.entry.now && step.writes
    && (step.action.rescheduled <==> StoresNext(step, env).Applied?)
    && (!step.outcome.failed ==> Delays(Next(sched, env.entry.now), step))
    && (forall r :: r in step.recorded ==> env.record.Applied? && r.time == env.record.at)
    && step.status.lastScheduled == s.lastScheduled
    && step.status.nextScheduled
       == if step.action.rescheduled then Some(Next(sched, env.entry.now)) else s.nextScheduled
  }

  lemma ConcludeShape(spec: Spec, sched: Schedule, s: Status<string>, phase: Phase, message: string, env: Env)
    requires phase != Done
    ensures RunningShape(spec, sched, s, env, ConcludeAt(spec, sched, s, phase, message, env))
  {
  }

  lemma DeliverShape(spec: Spec, sched: Schedule, s: Status<string>, env: Env)
    requires |env.xs| == |spec.apis|
    ensures RunningShape(spec, sched, s, env, Deliver(spec, sched, s, env))
  {
    hide Delivery, Entries;
    var sha := Delivery(spec.job, Entries(spec, s, env), env.git);
    if env.auth.Some? {
      ConcludeShape(spec, sched, s, Failed, "Authentication failed: " + env.auth.value, env);
    } else if sha.Failure? {
      ConcludeShape(spec, sched, s, Failed, "Git commit failed: " + sha.error, env);
    }
  }

  lemma ProceedShape(spec: Spec, sched: Schedule, s: Status<string>, env: Env)
    requires |env.xs| == |spec.apis|
    ensures RunningShape(spec, sched, s, env, Proceed(spec, sched, s, env))
  {
    var tripped := FirstTripped(s.restStatuses);
    if spec.apis == [] {
      DeliverShape(spec, sched, s, env);
    } else if tripped.Some? {
      ConcludeShape(spec, sched, s, Failed, LimitMessage(tripped.value), env);
    } else {
      match CheckAll(spec.apis, s.restStatuses, env.xs, Some(CALL_LIMIT)).1 {
        case Broken(m) => ConcludeShape(spec, sched, s, Failed, "REST API check failed: " + m, env);
        case NotMet => ConcludeShape(spec, sched, s, Pending, "REST API conditions not met", env);
        case Met => DeliverShape(spec, sched, s, env);
      }
    }
  }

  /** Every GitCommit reconcile is a step of a scheduled run: at most one push, only when it executes;
      at most one record, agreeing with the status it leaves; Last and Next moved as the abstract
      timer does; and an execution that leaves the next time unmoved has lost the write that stores it. */
  lemma ReconcileIsShaped(spec: Spec, s: Status<string>, env: Env, clock: Time)
    requires |env.xs| == |spec.apis| && InOrder(clock, env)
    ensures var step := Reconcile(spec, s, env);
            && Shaped(RulesOf(spec), s, step) && TimerShaped(RulesOf(spec), s, step)
            && Timely(clock, step) && step.end <= env.end
            && (step.action.Execute? ==> (step.action.rescheduled <==> StoresNext(step, env).Applied?))
  {
    GateShape(spec.schedule, s, RUNNING, env.entry);
    match Enter(spec.schedule, s, RUNNING, env.entry) {
      case Stop(_, _, _, _) =>
      case Go(t, sched) => ProceedShape(spec, sched, t, env);
    }
  }
}
