/** The one-shot PullRequest. Its status writes are single compare-and-swaps on the copy the reconcile
    started from, so unlike for a GitCommit nothing here assumes that this copy is current. */
module UnscheduledPullRequest {
  import opened Wrappers
  import opened Api
  import opened StatusServer
  import opened RestApis
  import opened Worktree
  import opened Forge

  datatype Spec = Spec(created: Time, ttlMinutes: Option<int>, apis: seq<RestApi>, job: PrJob)

  predicate Expired(spec: Spec, now: Time) {
    PastTtl(spec.created, spec.ttlMinutes, now)
  }

  predicate Terminal(s: Status<PrRef>) {
    s.phase == Done || s.phase == Failed
  }

  // What a reconcile learns; stale is the outdated copy it was handed, if it was. Every write based
  // on that is refused.
  datatype Env = Env(
    stale: Option<Status<PrRef>>,
    now: Time,
    deleted: bool,
    xs: seq<Exchange>,
    running: Attempt,
    auth: Option<string>,
    forge: PrLearned,
    final: Attempt)

  datatype Step = Step(stored: Option<Status<PrRef>>, outcome: Outcome, created: seq<PrRef>)

  function Copy(current: Status<PrRef>, env: Env): Status<PrRef> {
    if env.stale.Some? then env.stale.value else current
  }

  function Stamped(s: Status<PrRef>, phase: Phase, message: string, at: Time): Status<PrRef> {
    s.(phase := phase, message := message, lastSync := Some(at))
  }

  // The status after a write of own, and whether it was accepted.
  function Swap(own: Status<PrRef>, current: Status<PrRef>, phase: Phase, message: string, a: Attempt, env: Env)
    : (Status<PrRef>, bool)
  {
    match a
    case Lost => (current, false)
    case Applied(at) => if env.stale.Some? then (current, false) else (Stamped(own, phase, message, at), true)
  }

  function Reconcile(spec: Spec, current: Status<PrRef>, env: Env): Step
    requires |env.xs| == |spec.apis|
  {
    var s := Copy(current, env);
    if Expired(spec, env.now) then
      if env.deleted then Step(None, Outcome(0, false), []) else Step(Some(current), Outcome(MINUTE, true), [])
    else if Terminal(s) then Step(Some(current), Outcome(MINUTE, false), [])
    else if spec.apis == [] then Process(spec.job, s, current, env)
    else
      var (entries, verdict) := CheckAll(spec.apis, s.restStatuses, env.xs, None);
      var own := s.(restStatuses := entries);
      match verdict
      case Broken(m) => Report(own, current, Failed, "REST API condition check failed: " + m, env)
      case NotMet => Report(own, current, Pending, "REST API condition not met, will retry later", env)
      case Met => Process(spec.job, own, current, env)
  }

  // A last write whose failure is ignored.
  function Report(own: Status<PrRef>, current: Status<PrRef>, phase: Phase, message: string, env: Env): Step {
    Step(Some(Swap(own, current, phase, message, env.final, env).0), Outcome(5 * MINUTE, false), [])
  }

  function Process(job: PrJob, own: Status<PrRef>, current: Status<PrRef>, env: Env): Step {
    var (running, accepted) := Swap(own, current, Running, "Processing pull request", env.running, env);
    if accepted then Deliver(job, running, env) else Step(Some(current), Outcome(0, true), [])
  }

  function Deliver(job: PrJob, running: Status<PrRef>, env: Env): Step {
    if env.auth.Some? then Report(running, running, Failed, "Authentication failed: " + env.auth.value, env)
    else
      match Creation(job, running.restStatuses, env.forge)
      case Crashed => Step(Some(running), Outcome(0, true), [])
      case Refused(m) => Report(running, running, Failed, "Pull request creation failed: " + m, env)
      case Opened(pr) =>
        var (stored, done) :=
          Swap(running.(result := pr), running, Done, "Pull request created successfully", env.final, env);
        Step(Some(stored), Outcome(0, !done), [pr])
  }

  // Does this reconcile get to the creation of a pull request?
  predicate Creates(spec: Spec, current: Status<PrRef>, env: Env)
    requires |env.xs| == |spec.apis|
  {
    var s := Copy(current, env);
    && !Expired(spec, env.now) && !Terminal(s)
    && (spec.apis == [] || CheckAll(spec.apis, s.restStatuses, env.xs, None).1.Met?)
    && env.stale.None? && env.running.Applied? && env.auth.None?
  }

  // The REST entries that the files of this reconcile are built from.
  function Entries(spec: Spec, current: Status<PrRef>, env: Env): seq<RestStatus>
    requires |env.xs| == |spec.apis|
  {
    BuiltFrom(spec.apis, Copy(current, env).restStatuses, env.xs, None)
  }

  // Is the last write applied, unless a crash came before it?
  predicate Told(job: PrJob, entries: seq<RestStatus>, env: Env) {
    env.final.Applied? || (env.auth.None? && Creation(job, entries, env.forge).Crashed?)
  }

  // Is every write that this reconcile calls for applied, and every deletion done?
  predicate Unlost(spec: Spec, current: Status<PrRef>, env: Env)
    requires |env.xs| == |spec.apis|
  {
    var s := Copy(current, env);
    if Expired(spec, env.now) then env.deleted
    else if Terminal(s) then true
    else if spec.apis == [] || CheckAll(spec.apis, s.restStatuses, env.xs, None).1.Met? then
      env.stale.None? && env.running.Applied? && Told(spec.job, Entries(spec, current, env), env)
    else env.stale.None? && env.final.Applied?
  }

  /* The handler. */

  // updateStatus: one attempt, with the version of the copy. The copy keeps the change even if the
  // server refuses it.
  method UpdateStatus(server: Server<PrRef>, res: Resource<PrRef>, version: nat, phase: Phase, message: string)
    returns (err: Option<ApiError>, next: nat)
    requires server.Valid() && version <= server.version
    modifies server, res
    ensures server.Valid() && old(server.clock) <= server.clock && next <= server.version
    ensures server.updates == old(server.updates) + 1
    ensures server.failures == old(server.failures) + if err.Some? then 1 else 0
    ensures res.status == Stamped(old(res.status), phase, message, server.clock)
    ensures err.None? ==>
              && version == old(server.version) && next == server.version
              && server.log == old(server.log) + [Write(true, old(server.status), res.status)]
    ensures err.Some? ==>
              ForeignOnly(old(server.log), server.log) && (!server.foreign ==> server.log == old(server.log))
  {
    var now := server.Now();
    res.status := Stamped(res.status, phase, message, now);
    err := server.Update(Snapshot(version, res.status));
    next := if err.None? then server.version else version;
  }

  // Is the copy the one the server has, or at least known to be older?
  ghost predicate Copied(server: Server<PrRef>, res: Resource<PrRef>, version: nat)
    reads server, res
  {
    && server.Valid() && !server.foreign && version <= server.version
    && (version == server.version ==> res.status.(restStatuses := server.status.restStatuses) == server.status)
  }

  method WriteReport(server: Server<PrRef>, res: Resource<PrRef>, version: nat, phase: Phase, message: string,
                     ghost known: Env)
    returns (outcome: Outcome, ghost env: Env)
    requires Copied(server, res, version) && (known.stale.None? <==> version == server.version)
    modifies server, res
    ensures server.Valid() && env == known.(final := env.final)
    ensures Report(old(res.status), old(server.status), phase, message, env) == Step(Some(server.status), outcome, [])
    ensures server.failures == old(server.failures) + if env.final.Lost? then 1 else 0
    ensures env.final.Applied? ==> env.stale.None?
  {
    var err, _ := UpdateStatus(server, res, version, phase, message);
    env := known.(final := if err.None? then Applied(server.clock) else Lost);
    outcome := Outcome(5 * MINUTE, false);
  }

  // What a reconcile did to the hosted repository: what PrLearned tells of, if it got that far.
  ghost predicate HubMoved(job: PrJob, entries: seq<RestStatus>, env: Env, creates: bool, prs: seq<PrRef>,
                           default: string, before: map<string, Tree>, after: map<string, Tree>,
                           pulls: seq<Pull>, more: seq<Pull>)
  {
    && default in before
    && (if creates then HeadMoved(job, entries, env.forge, default, before, after) else after == before)
    && more == pulls + Pulls(prs, entries)
  }

  // From the Running write on.
  method RunProcess(server: Server<PrRef>, res: Resource<PrRef>, version: nat, hub: Hub, job: PrJob, ghost known: Env)
    returns (outcome: Outcome, ghost env: Env, ghost created: seq<PrRef>)
    requires Copied(server, res, version) && (known.stale.None? <==> version == server.version)
    requires hub.default in hub.branches
    modifies server, res, hub
    ensures server.Valid() && hub.default in hub.branches
    ensures env == known.(running := env.running, auth := env.auth, forge := env.forge, final := env.final)
    ensures Process(job, old(res.status), old(server.status), env) == Step(Some(server.status), outcome, created)
    ensures old(server.failures) <= server.failures
    ensures server.failures == old(server.failures) ==>
              env.stale.None? && env.running.Applied? && Told(job, old(res.status.restStatuses), env)
    ensures HubMoved(job, old(res.status.restStatuses), env,
                     env.stale.None? && env.running.Applied? && env.auth.None?, created, hub.default,
                     old(hub.branches), hub.branches, old(hub.pulls), hub.pulls)
  {
    hide Deliver, HeadMoved;
    created := [];
    var err, next := UpdateStatus(server, res, version, Running, "Processing pull request");
    if err.Some? {
      env := known.(running := Lost);
      outcome := Outcome(0, true);
      return;
    }
    ghost var running := known.(running := Applied(server.clock));
    assert res.status == server.status;
    outcome, env, created := RunDelivery(server, res, next, hub, job, running);
  }

  method RunDelivery(server: Server<PrRef>, res: Resource<PrRef>, version: nat, hub: Hub, job: PrJob, ghost known: Env)
    returns (outcome: Outcome, ghost env: Env, ghost created: seq<PrRef>)
    requires Copied(server, res, version) && known.stale.None? && version == server.version
    requires res.status == server.status && known.running.Applied? && hub.default in hub.branches
    modifies server, res, hub
    ensures server.Valid() && hub.default in hub.branches
    ensures env == known.(auth := env.auth, forge := env.forge, final := env.final)
    ensures Deliver(job, old(server.status), env) == Step(Some(server.status), outcome, created)
    ensures old(server.failures) <= server.failures
    ensures server.failures == old(server.failures) ==> Told(job, old(res.status.restStatuses), env)
    ensures HubMoved(job, old(res.status.restStatuses), env, env.auth.None?, created, hub.default,
                     old(hub.branches), hub.branches, old(hub.pulls), hub.pulls)
  {
    hide Creation, HeadMoved;
    created := [];
    var auth: Option<string> :| true;
    if auth.Some? {
      ghost var missing := known.(auth := auth);
      outcome, env := WriteReport(server, res, version, Failed, "Authentication failed: " + auth.value, missing);
      return;
    }
    var made, learned := CreatePullRequest(hub, job, res.status.restStatuses);
    ghost var knows := known.(auth := None, forge := learned);
    match made {
      case Crashed =>
        env := knows;
        outcome := Outcome(0, true);
      case Refused(m) =>
        outcome, env := WriteReport(server, res, version, Failed, "Pull request creation failed: " + m, knows);
      case Opened(pr) =>
        created := [pr];
        res.status := res.status.(result := pr);
        var err, _ := UpdateStatus(server, res, version, Done, "Pull request created successfully");
        env := knows.(final := if err.None? then Applied(server.clock) else Lost);
        outcome := Outcome(0, err.Some?);
    }
  }

  /** Reconcile of a PullRequest without a schedule, on a copy that may be out of date. */
  method HandleUnscheduled(server: Server<PrRef>, res: Resource<PrRef>, version: nat, hub: Hub, spec: Spec)
    returns (outcome: Outcome, deleted: bool, ghost env: Env, ghost created: seq<PrRef>)
    requires server.Valid() && !server.foreign && version <= server.version && hub.default in hub.branches
    requires version == server.version ==> res.status == server.status
    modifies server, res, hub
    ensures server.Valid() && |env.xs| == |spec.apis| && old(server.clock) <= env.now && hub.default in hub.branches
    ensures env.stale == if version == old(server.version) then None else Some(old(res.status))
    ensures Reconcile(spec, old(server.status), env)
            == Step(if deleted then None else Some(server.status), outcome, created)
    ensures server.failures == old(server.failures) ==> Unlost(spec, old(server.status), env)
    ensures HubMoved(spec.job, Entries(spec, old(server.status), env), env, Creates(spec, old(server.status), env),
                     created, hub.default, old(hub.branches), hub.branches, old(hub.pulls), hub.pulls)
  {
    hide CheckAll, Process, HeadMoved, PastTtl;
    var now := server.Now();
    deleted, created := false, [];
    env := Env(if version == server.version then None else Some(res.status), now, false,
               seq(|spec.apis|, _ => Exchange(NotSent(""), now)), Lost, None, NOTHING_MADE, Lost);
    if Expired(spec, now) {
      var failed := server.Delete();
      deleted := !failed;
      env := env.(deleted := deleted);
      return if failed then Outcome(MINUTE, true) else Outcome(0, false), deleted, env, created;
    }
    if res.status.phase == Done || res.status.phase == Failed {
      return Outcome(MINUTE, false), deleted, env, created;
    }
    if |spec.apis| > 0 {
      var verdict, xs := CheckRestApis(server, res, spec.apis, None);
      env := env.(xs := xs);
      if !verdict.Met? {
        var phase, message := Pending, "REST API condition not met, will retry later";
        if verdict.Broken? {
          phase, message := Failed, "REST API condition check failed: " + verdict.message;
        }
        outcome, env := WriteReport(server, res, version, phase, message, env);
        return;
      }
    }
    outcome, env, created := RunProcess(server, res, version, hub, spec.job, env);
  }
}
