/** The one-shot GitCommit: time to live, terminal phases, and the circuit breaker that bounds its
    REST calls. One reconcile as a function of what it learns from outside, and the handler. */
module UnscheduledGitCommit {
  import opened Wrappers
  import opened Api
  import opened StatusServer
  import opened StatusHelpers
  import opened RestApis
  import opened Worktree
  import opened GitRemote

  datatype Spec = Spec(created: Time, ttlMinutes: Option<int>, apis: seq<RestApi>, job: Job)

  predicate Expired(spec: Spec, now: Time) {
    PastTtl(spec.created, spec.ttlMinutes, now)
  }

  predicate Terminal(s: Status<string>) {
    s.phase == Done || s.phase == Failed
  }

  datatype Env = Env(
    now: Time,
    deleted: bool,  // whether a Delete succeeds
    running: Attempt,
    xs: seq<Exchange>,
    auth: Option<string>,
    git: Learned,
    final: Attempt)

  // A push and the phase that was stored when it happened.
  datatype Push = Push(sha: string, phase: Phase)

  // stored is None once the resource is deleted.
  datatype Step = Step(stored: Option<Status<string>>, outcome: Outcome, pushes: seq<Push>)

  /** One reconcile that starts from a copy of the object while the server holds s. Unlike in
      UnscheduledPullRequest the writes are based on what the server holds, not on the copy. */
  function Reconcile(spec: Spec, copy: Status<string>, s: Status<string>, env: Env): Step
    requires |env.xs| == |spec.apis|
  {
    if Expired(spec, env.now) then
      if env.deleted then Step(None, Outcome(0, false), []) else Step(Some(s), Outcome(MINUTE, true), [])
    else if Terminal(copy) then Step(Some(s), Outcome(MINUTE, false), [])
    else if copy.phase == Running then Process(spec, copy, s, env)
    else
      match env.running
      case Lost => Step(Some(s), Outcome(0, true), [])
      case Applied(at) =>
        var t := WithPhase(copy, s, Running, "Processing git commit", at);
        Process(spec, t, t, env)
  }

  function Process(spec: Spec, copy: Status<string>, s: Status<string>, env: Env): Step
    requires |env.xs| == |spec.apis|
  {
    if spec.apis == [] then Deliver(spec.job, copy, s, env)
    else
      var tripped := FirstTripped(copy.restStatuses);
      if tripped.Some? then
        Report(copy, s, Failed, LimitMessage(tripped.value), Outcome(0, false), env.final)
      else
        var (entries, verdict) := CheckAll(spec.apis, copy.restStatuses, env.xs, Some(CALL_LIMIT));
        var own := copy.(restStatuses := entries);
        match verdict
        case Broken(m) => Report(own, s, Failed, "REST API check failed: " + m, Outcome(5 * MINUTE, false), env.final)
        case NotMet =>
          Report(own, s, Pending, "REST API conditions not met, waiting...", Outcome(2 * MINUTE, false), env.final)
        case Met => Deliver(spec.job, own, s, env)
  }

  function Deliver(job: Job, own: Status<string>, s: Status<string>, env: Env): Step {
    if env.auth.Some? then
      Report(own, s, Failed, "Authentication failed: " + env.auth.value, Outcome(5 * MINUTE, false), env.final)
    else
      match Delivery(job, own.restStatuses, env.git)
      case Failure(m) => Report(own, s, Failed, "Git commit failed: " + m, Outcome(5 * MINUTE, false), env.final)
      case Success(sha) => Finish(own.(result := sha), s, env.final)
  }

  // A last write whose failure is ignored.
  function Report(own: Status<string>, s: Status<string>, phase: Phase, message: string, outcome: Outcome,
                  final: Attempt): Step
  {
    match final
    case Lost => Step(Some(s), outcome, [])
    case Applied(at) => Step(Some(WithPhase(own, s, phase, message, at)), outcome, [])
  }

  // The write after a push; own carries the new SHA.
  function Finish(own: Status<string>, s: Status<string>, final: Attempt): Step {
    var pushes := [Push(own.result, s.phase)];
    match final
    case Lost => Step(Some(s), Outcome(0, true), pushes)
    case Applied(at) =>
      Step(Some(WithPhase(own, s, Done, "Git commit completed successfully", at)), Outcome(0, false), pushes)
  }

  // Is every write that this reconcile calls for applied, and every deletion done?
  predicate Unlost(spec: Spec, copy: Status<string>, env: Env) {
    if Expired(spec, env.now) then env.deleted
    else !Terminal(copy) ==> (copy.phase == Running || env.running.Applied?) && env.final.Applied?
  }

  /* The handler. */

  function Shas(pushes: seq<Push>): seq<string> {
    if pushes == [] then [] else [pushes[0].sha]
  }

  // The REST entries that a reconcile works on, from its copy or from what it read with the Running write.
  function Held(copy: Status<string>, s: Status<string>): seq<RestStatus> {
    if copy.phase == Running || |copy.restStatuses| > 0 then copy.restStatuses else s.restStatuses
  }

  // The entries that the files of this reconcile are built from.
  function Entries(spec: Spec, copy: Status<string>, s: Status<string>, env: Env): seq<RestStatus>
    requires |env.xs| == |spec.apis|
  {
    BuiltFrom(spec.apis, Held(copy, s), env.xs, Some(CALL_LIMIT))
  }

  method WriteReport(server: Server<string>, res: Resource<string>, phase: Phase, message: string, outcome: Outcome)
    returns (ghost final: Attempt)
    requires server.Valid() && !server.foreign
    modifies server, res
    ensures server.Valid()
    ensures Report(old(res.status), old(server.status), phase, message, outcome, final)
            == Step(Some(server.status), outcome, [])
    ensures old(server.failures) + (if final.Lost? then 1 else 0) <= server.failures
  {
    var err, _ := UpdateStatus(server, res, phase, message);
    final := if err.None? then Applied(server.clock) else Lost;
  }

  method RunDelivery(server: Server<string>, res: Resource<string>, remote: Remote, job: Job, ghost known: Env)
    returns (outcome: Outcome, ghost env: Env, ghost pushes: seq<Push>)
    requires server.Valid() && !server.foreign && remote.default in remote.branches
    modifies server, res, remote
    ensures server.Valid() && remote.default in remote.branches
    ensures env == known.(auth := env.auth, git := env.git, final := env.final)
    ensures Deliver(job, old(res.status), old(server.status), env) == Step(Some(server.status), outcome, pushes)
    ensures old(server.failures) + (if env.final.Lost? then 1 else 0) <= server.failures
    ensures Delivered(job, old(res.status).restStatuses, env.git, Shas(pushes), remote.default,
                      old(remote.branches), remote.branches, old(remote.commits), remote.commits)
  {
    hide Delivery, CommittedTree, PushedBranch, WithPhase;
    pushes := [];
    var auth: Option<string> :| true;
    if auth.Some? {
      outcome := Outcome(5 * MINUTE, false);
      ghost var final := WriteReport(server, res, Failed, "Authentication failed: " + auth.value, outcome);
      env := known.(auth := auth, final := final);
      return;
    }
    var sha, learned := PerformGitCommit(remote, job, res.status.restStatuses);
    if sha.Failure? {
      outcome := Outcome(5 * MINUTE, false);
      ghost var final := WriteReport(server, res, Failed, "Git commit failed: " + sha.error, outcome);
      env := known.(auth := None, git := learned, final := final);
      return;
    }
    pushes := [Push(sha.value, server.status.phase)];
    res.status := res.status.(result := sha.value);
    var err, _ := UpdateStatus(server, res, Done, "Git commit completed successfully");
    env := known.(auth := None, git := learned, final := if err.None? then Applied(server.clock) else Lost);
    outcome := Outcome(0, err.Some?);
  }

  method RunProcess(server: Server<string>, res: Resource<string>, remote: Remote, spec: Spec, ghost known: Env)
    returns (outcome: Outcome, ghost env: Env, ghost pushes: seq<Push>)
    requires server.Valid() && !server.foreign && |known.xs| == |spec.apis| && remote.default in remote.branches
    modifies server, res, remote
    ensures server.Valid() && remote.default in remote.branches
    ensures |env.xs| == |spec.apis|
    ensures env == known.(xs := env.xs, auth := env.auth, git := env.git, final := env.final)
    ensures Process(spec, old(res.status), old(server.status), env) == Step(Some(server.status), outcome, pushes)
    ensures old(server.failures) + (if env.final.Lost? then 1 else 0) <= server.failures
    ensures Delivered(spec.job, BuiltFrom(spec.apis, old(res.status).restStatuses, env.xs, Some(CALL_LIMIT)),
                      env.git, Shas(pushes), remote.default,
                      old(remote.branches), remote.branches, old(remote.commits), remote.commits)
  {
    hide CheckAll, Deliver, Delivery, CommittedTree, PushedBranch, LimitMessage;
    pushes := [];
    ghost var xs := known.xs;
    if |spec.apis| > 0 {
      var tripped := FindTripped(res.status.restStatuses);
      if tripped.Some? {
        outcome := Outcome(0, false);
        ghost var final :=
          WriteReport(server, res, Failed, LimitMessage(tripped.value), outcome);
        env := known.(final := final);
        return;
      }
      var verdict;
      verdict, xs := CheckRestApis(server, res, spec.apis, Some(CALL_LIMIT));
      if !verdict.Met? {
        var phase, message := Pending, "REST API conditions not met, waiting...";
        outcome := Outcome(2 * MINUTE, false);
        if verdict.Broken? {
          phase, message, outcome := Failed, "REST API check failed: " + verdict.message, Outcome(5 * MINUTE, false);
        }
        ghost var final := WriteReport(server, res, phase, message, outcome);
        env := known.(xs := xs, final := final);
        return;
      }
    }
    outcome, env, pushes := RunDelivery(server, res, remote, spec.job, known.(xs := xs));
  }

  /** Reconcile of a GitCommit without a schedule, on a copy that may be out of date. The back-off on a
      conflicting Running write is not here: UpdateStatus never reports a conflict. */
  method HandleUnscheduled(server: Server<string>, res: Resource<string>, remote: Remote, spec: Spec)
    returns (outcome: Outcome, deleted: bool, ghost env: Env, ghost pushes: seq<Push>)
    requires server.Valid() && !server.foreign && remote.default in remote.branches
    modifies server, res, remote
    ensures server.Valid() && |env.xs| == |spec.apis| && old(server.clock) <= env.now
    ensures remote.default in remote.branches
    ensures Reconcile(spec, old(res.status), old(server.status), env)
            == Step(if deleted then None else Some(server.status), outcome, pushes)
    ensures server.failures == old(server.failures) ==> Unlost(spec, old(res.status), env)
    ensures Delivered(spec.job, Entries(spec, old(res.status), old(server.status), env), env.git, Shas(pushes),
                      remote.default, old(remote.branches), remote.branches, old(remote.commits), remote.commits)
  {
    hide Process, BuiltFrom, CommittedTree, PushedBranch;
    var now := server.Now();
    deleted, pushes := false, [];
    env := Env(now, false, Lost, seq(|spec.apis|, _ => Exchange(NotSent(""), now)), None, NOT_CLONED, Lost);
    if Expired(spec, now) {
      var failed := server.Delete();
      deleted := !failed;
      env := env.(deleted := deleted);
      return if failed then Outcome(MINUTE, true) else Outcome(0, false), deleted, env, pushes;
    }
    if res.status.phase == Done || res.status.phase == Failed {
      return Outcome(MINUTE, false), deleted, env, pushes;
    }
    if res.status.phase != Running {
      var err, _ := UpdateStatus(server, res, Running, "Processing git commit");
      assert err != Some(Conflict);
      if err.Some? {
        return Outcome(0, true), deleted, env, pushes;
      }
      env := env.(running := Applied(server.clock));
    }
    outcome, env, pushes := RunProcess(server, res, remote, spec, env);
  }
}
