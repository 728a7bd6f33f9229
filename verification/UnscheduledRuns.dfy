/** The life of a one-shot GitCommit: any sequence of reconciles from its creation on, with lost
    writes and crashes anywhere. */
module UnscheduledRuns {
  import opened Wrappers
  import opened Api
  import opened StatusHelpers
  import opened RestApis
  import opened Worktree
  import opened ResourceRefs
  import opened GitRemote
  import opened FreshFiles
  import opened UnscheduledGitCommit

  /* Time to live. */

  /** Without a time to live a resource never expires. Within the bounds of the API (1 to 43200 minutes) it
      is expired exactly when it is strictly past its creation plus its time to live; the 64-bit product
      overflows only beyond 153722867 minutes either way. */
  lemma ExpiredIff(spec: Spec, now: Time)
    ensures spec.ttlMinutes.None? ==> !Expired(spec, now)
    ensures spec.ttlMinutes.Some? ==>
              var ttl := spec.ttlMinutes.value;
              && (Int64(ttl * MINUTE) == ttl * MINUTE <==> -153722867 <= ttl <= 153722867)
              && (1 <= ttl <= 43200 ==> (Expired(spec, now) <==> now > spec.created + ttl * MINUTE))
  {
    if spec.ttlMinutes.Some? {
      var d := spec.ttlMinutes.value * 60_000_000_000;
      assert d == spec.ttlMinutes.value * MINUTE;
    }
  }

  /** A reconcile deletes the resource only if it is expired, and then whenever Delete succeeds, however
      old its copy. */
  lemma DeletedIff(spec: Spec, copy: Status<string>, s: Status<string>, env: Env)
    requires |env.xs| == |spec.apis|
    ensures Reconcile(spec, copy, s, env).stored.None? <==> Expired(spec, env.now) && env.deleted
  {
    hide CheckAll, Delivery, Int64;
  }

  // Something will make the work queue look again: an error, a delay, or the event of a changed
  // status. A deleted resource needs no wake-up.
  predicate Wakes(s: Status<string>, step: Step) {
    step.stored != Some(s) || step.outcome.failed || step.outcome.requeueAfter > 0
  }

  /** A live resource always gets another look, with one exception: when it is found Running with
      its circuit breaker tripped and the Failed write is lost, nothing is left to wake it. */
  lemma StrandedIff(spec: Spec, s: Status<string>, env: Env)
    requires |env.xs| == |spec.apis|
    ensures !Wakes(s, Reconcile(spec, s, s, env)) <==>
              && !Expired(spec, env.now) && s.phase == Running && spec.apis != []
              && FirstTripped(s.restStatuses).Some? && env.final.Lost?
  {
    hide CheckAll, Delivery, Int64;
  }

  /* How a reconcile ends. */

  // Does it get as far as the breaker?
  predicate Starts(spec: Spec, copy: Status<string>, env: Env) {
    !Expired(spec, env.now) && copy.phase !in {Done, Failed} && (copy.phase == Running || env.running.Applied?)
  }

  /** A reconcile that does not get as far as the breaker pushes nothing and changes nothing, but that a
      deletion which succeeds removes the resource; it comes back after a minute or upon its error. */
  lemma StopsEarly(spec: Spec, copy: Status<string>, s: Status<string>, env: Env)
    requires |env.xs| == |spec.apis| && !Starts(spec, copy, env)
    ensures var step := Reconcile(spec, copy, s, env);
            && step.pushes == []
            && step.stored == (if Expired(spec, env.now) && env.deleted then None else Some(s))
            && step.outcome
               == if Expired(spec, env.now) then (if env.deleted then Outcome(0, false) else Outcome(MINUTE, true))
                  else if copy.phase in {Done, Failed} then Outcome(MINUTE, false) else Outcome(0, true)
  {
  }

  lemma ProcessEnds(spec: Spec, copy: Status<string>, s: Status<string>, env: Env)
    requires |env.xs| == |spec.apis|
    ensures var step, entries := Process(spec, copy, s, env), copy.restStatuses;
            Ended(spec, entries, s, env, step)
  {
    hide CheckAll, FirstTripped, Delivery, Halted, MustFail, MustWait, LimitMessage, Held;
    AttemptIs(spec.job, spec.apis, copy.restStatuses, env.xs, env.auth, env.git);
  }

  // What a reconcile that holds these entries makes of the status s that it found or set to Running.
  ghost predicate Ended(spec: Spec, held: seq<RestStatus>, s: Status<string>, env: Env, step: Step)
    requires |env.xs| == |spec.apis|
  {
    var fails := MustFail(spec.job, spec.apis, held, env.xs, env.auth, env.git);
    var waits := MustWait(spec.apis, held, env.xs);
    && step.pushes == (if fails || waits then [] else [Push(env.git.delivered.value, s.phase)])
    && (env.final.Lost? ==> step.stored == Some(s))
    && (env.final.Applied? ==>
         step.stored.Some? && step.stored.value.phase == if fails then Failed else if waits then Pending else Done)
    && (env.final.Applied? && !fails && !waits && env.git.delivered.value != "" ==>
         step.stored.value.result == env.git.delivered.value)
    && step.outcome
       == if waits then Outcome(2 * MINUTE, false)
          else if !fails then Outcome(0, env.final.Lost?)
          else if Halted(spec.apis, held) then Outcome(0, false)
          else Outcome(5 * MINUTE, false)
  }

  /** How the rest end, from what came back alone. The stored phase is Failed exactly when the breaker is
      tripped, the check broke, or, with all conditions met, credentials, clone, files, references, commit
      or push fail; it is Pending, with another look in two minutes, exactly when the check could judge
      every answer and some condition is not met; otherwise it is Committed under the SHA of the one push. */
  lemma EndsAs(spec: Spec, copy: Status<string>, s: Status<string>, env: Env)
    requires |env.xs| == |spec.apis| && Starts(spec, copy, env)
    ensures var found := if copy.phase == Running then s
                         else WithPhase(copy, s, Running, "Processing git commit", env.running.at);
            && found.phase == (if copy.phase == Running then s.phase else Running)
            && Ended(spec, Held(copy, s), found, env, Reconcile(spec, copy, s, env))
  {
    hide Process, Ended;
    var found := if copy.phase == Running then s
                 else WithPhase(copy, s, Running, "Processing git commit", env.running.at);
    ProcessEnds(spec, if copy.phase == Running then copy else found, found, env);
  }

  /* Absorption and termination. */

  /** Committed and Failed are absorbing until deletion: nothing is pushed or rewritten. */
  lemma TerminalAbsorbs(spec: Spec, s: Status<string>, env: Env)
    requires |env.xs| == |spec.apis| && Terminal(s)
    ensures var step := Reconcile(spec, s, s, env);
            step.pushes == [] && (step.stored == Some(s) || step.stored == None)
  {
  }

  predicate Finished(stored: Option<Status<string>>) {
    stored.None? || Terminal(stored.value)
  }

  function MaxCalls(sts: seq<RestStatus>): nat {
    if sts == [] then 0 else Max(MaxCalls(sts[..|sts| - 1]), sts[|sts| - 1].callCount)
  }

  // How many reconciles a status is at most away from its end: eleven minus the calls made.
  function Rank(spec: Spec, s: Status<string>): int {
    if Terminal(s) then 0
    else if spec.apis == [] || FirstTripped(s.restStatuses).Some? then 1
    else CALL_LIMIT + 1 - MaxCalls(Aligned(spec.apis, s.restStatuses))
  }

  // One more call for every API.
  lemma {:induction false} MaxCallsGrows(before: seq<RestStatus>, after: seq<RestStatus>)
    requires |before| == |after|
    requires forall i :: 0 <= i < |before| ==> after[i].callCount == before[i].callCount + 1
    ensures before != [] ==> MaxCalls(after) == MaxCalls(before) + 1
  {
    if |before| > 1 {
      MaxCallsGrows(before[..|before| - 1], after[..|after| - 1]);
    }
  }

  lemma {:induction false} MaxCallsBound(sts: seq<RestStatus>, bound: nat)
    requires forall i :: 0 <= i < |sts| ==> sts[i].callCount <= bound
    ensures MaxCalls(sts) <= bound
  {
    if sts != [] {
      MaxCallsBound(sts[..|sts| - 1], bound);
    }
  }

  // An untripped check without an error calls every API once and leaves room for the breaker.
  lemma CheckGrowsCounts(apis: seq<RestApi>, sts: seq<RestStatus>, xs: seq<Exchange>)
    requires |xs| == |apis| && apis != [] && FirstTripped(sts).None?
    requires !CheckAll(apis, sts, xs, Some(CALL_LIMIT)).1.Broken?
    ensures MaxCalls(CheckAll(apis, sts, xs, Some(CALL_LIMIT)).0) == MaxCalls(Aligned(apis, sts)) + 1 <= CALL_LIMIT
  {
    var before, after := Aligned(apis, sts), CheckAll(apis, sts, xs, Some(CALL_LIMIT)).0;
    forall i | 0 <= i < |apis|
      ensures before[i].callCount < CALL_LIMIT && after[i].callCount == before[i].callCount + 1
    {
      if |sts| == |apis| {
        NoneTripped(sts, i);
      }
      NoErrorCallsAll(apis, before, xs, i, Some(CALL_LIMIT));
      CallCountsCalls(apis, before, xs, i, Some(CALL_LIMIT));
    }
    MaxCallsGrows(before, after);
    MaxCallsBound(before, CALL_LIMIT - 1);
  }

  lemma {:induction false} MaxCallsTrips(sts: seq<RestStatus>)
    requires MaxCalls(sts) >= CALL_LIMIT
    ensures FirstTripped(sts).Some?
  {
    if FirstTripped(sts).None? {
      forall i | 0 <= i < |sts| ensures sts[i].callCount <= CALL_LIMIT - 1 {
        NoneTripped(sts, i);
      }
      MaxCallsBound(sts, CALL_LIMIT - 1);
    }
  }

  /** The termination measure: from any status whatsoever, a reconcile whose writes are applied
      finishes the resource or brings the rank down. */
  lemma RankDecreases(spec: Spec, s: Status<string>, env: Env)
    requires |env.xs| == |spec.apis| && !Terminal(s)
    requires env.deleted && env.running.Applied? && env.final.Applied?
    ensures var stored := Reconcile(spec, s, s, env).stored;
            Finished(stored) || Rank(spec, stored.value) < Rank(spec, s)
  {
    if spec.apis != [] && FirstTripped(s.restStatuses).None? {
      var (entries, verdict) := CheckAll(spec.apis, s.restStatuses, env.xs, Some(CALL_LIMIT));
      if verdict.NotMet? {
        CheckGrowsCounts(spec.apis, s.restStatuses, env.xs);
        if MaxCalls(entries) == CALL_LIMIT {
          MaxCallsTrips(entries);
        }
      }
    }
  }

  lemma RankIsBounded(spec: Spec, s: Status<string>)
    requires !Terminal(s)
    ensures 1 <= Rank(spec, s) <= CALL_LIMIT + 1
  {
    if FirstTripped(s.restStatuses).Some? {
      return;
    }
    var sts := Aligned(spec.apis, s.restStatuses);
    forall i | 0 <= i < |sts| ensures sts[i].callCount <= CALL_LIMIT - 1 {
      if |s.restStatuses| == |spec.apis| {
        NoneTripped(s.restStatuses, i);
      }
    }
    MaxCallsBound(sts, CALL_LIMIT - 1);
  }

  function StoredAfter(spec: Spec, stored: Option<Status<string>>, envs: seq<Env>): Option<Status<string>>
    requires forall e :: e in envs ==> |e.xs| == |spec.apis|
    decreases |envs|
  {
    if envs == [] || stored.None? then stored
    else StoredAfter(spec, Reconcile(spec, stored.value, stored.value, envs[0]).stored, envs[1..])
  }

  /** From any status, eleven reconciles whose writes are applied end in Committed, Failed or
      deletion. */
  lemma {:induction false} FinishesWithinEleven(spec: Spec, stored: Option<Status<string>>, envs: seq<Env>)
    requires forall e :: e in envs ==>
               |e.xs| == |spec.apis| && e.deleted && e.running.Applied? && e.final.Applied?
    requires |envs| >= (if Finished(stored) then 0 else Rank(spec, stored.value))
    ensures !Finished(stored) ==> Rank(spec, stored.value) <= 11
    ensures Finished(StoredAfter(spec, stored, envs))
    decreases |envs|
  {
    if !Finished(stored) {
      RankIsBounded(spec, stored.value);
      RankDecreases(spec, stored.value, envs[0]);
      var next := Reconcile(spec, stored.value, stored.value, envs[0]).stored;
      FinishesWithinEleven(spec, next, envs[1..]);
    } else if stored.Some? && envs != [] {
      TerminalAbsorbs(spec, stored.value, envs[0]);
      FinishesWithinEleven(spec, Reconcile(spec, stored.value, stored.value, envs[0]).stored, envs[1..]);
    }
  }

  /* Whole lives. */

  const CREATED := Status("", Unset, "", None, [], None, None, [])

  // What has happened since the creation, with the calls to one chosen API. A push is unrecorded, and
  // a call uncounted, when the write that should have told of it was lost.
  datatype World = World(
    stored: Option<Status<string>>,
    pushes: seq<Push>,
    unrecorded: nat,
    calls: nat,
    uncounted: nat)

  // Does the part of a reconcile that follows the Running phase send a request to API i?
  predicate Processes(spec: Spec, s: Status<string>, env: Env, i: nat)
    requires |env.xs| == |spec.apis|
  {
    && i < |spec.apis| && FirstTripped(s.restStatuses).None?
    && WasCalled(spec.apis, Aligned(spec.apis, s.restStatuses), env.xs, i, Some(CALL_LIMIT))
  }

  // Does this reconcile?
  predicate Calls(spec: Spec, s: Status<string>, env: Env, i: nat)
    requires |env.xs| == |spec.apis|
  {
    && !Expired(spec, env.now) && !Terminal(s) && (s.phase == Running || env.running.Applied?)
    && Processes(spec, s, env, i)
  }

  function Extend(w: World, step: Step, called: bool, lost: bool): World {
    World(step.stored, w.pushes + step.pushes, w.unrecorded + (if lost then |step.pushes| else 0),
          w.calls + (if called then 1 else 0), w.uncounted + (if called && lost then 1 else 0))
  }

  // A deleted resource is not reconciled again.
  function After(spec: Spec, i: nat, envs: seq<Env>): World
    requires forall e :: e in envs ==> |e.xs| == |spec.apis|
  {
    if envs == [] then World(Some(CREATED), [], 0, 0, 0)
    else
      var w, env := After(spec, i, envs[..|envs| - 1]), envs[|envs| - 1];
      if w.stored.None? then w
      else
        var s := w.stored.value;
        Extend(w, Reconcile(spec, s, s, env), Calls(spec, s, env, i), env.final.Lost?)
  }

  // The count of API i that a list of entries carries; a list of the wrong length carries none.
  function Counted(spec: Spec, sts: seq<RestStatus>, i: nat): nat {
    if i < |spec.apis| then Aligned(spec.apis, sts)[i].callCount else 0
  }

  // How the entries of API i move over a reconcile.
  ghost predicate EntriesShape(spec: Spec, before: seq<RestStatus>, after: seq<RestStatus>, i: nat, counts: bool) {
    && Counted(spec, after, i) == Counted(spec, before, i) + (if counts then 1 else 0)
    && (NoLeftover(spec.apis, before) ==> NoLeftover(spec.apis, after))
  }

  // What a push whose final write is applied leaves, and that nothing else leads to Committed.
  ghost predicate PushShape(s: Status<string>, t: Status<string>, pushes: seq<Push>, applied: bool) {
    if pushes != [] && applied then t.phase == Done && t.result == pushes[0].sha else t.phase == Done ==> t == s
  }

  // What a reconcile does to the fields that lives are about.
  ghost predicate StepShape(spec: Spec, s: Status<string>, env: Env, i: nat, step: Step)
    requires |spec.apis| == |env.xs|
  {
    var called := Calls(spec, s, env, i);
    && |step.pushes| <= 1
    && (step.pushes != [] ==> step.pushes[0].phase == Running)
    && (Terminal(s) ==> step.pushes == [] && !called && (step.stored.Some? ==> step.stored.value == s))
    && (called ==> Counted(spec, s.restStatuses, i) < CALL_LIMIT)
    && match step.stored
       case None => step.pushes == [] && !called
       case Some(t) =>
         && EntriesShape(spec, s.restStatuses, t.restStatuses, i, called && env.final.Applied?)
         && PushShape(s, t, step.pushes, env.final.Applied?)
  }

  /* Branches. */

  // The branches of the remote after a life that found them like this.
  function BranchesOver(spec: Spec, envs: seq<Env>, default: string, branches: map<string, Tree>)
    : (r: map<string, Tree>)
    requires default in branches && forall e :: e in envs ==> |e.xs| == |spec.apis|
    ensures default in r
  {
    if envs == [] then branches
    else
      var init, env := envs[..|envs| - 1], envs[|envs| - 1];
      var stored, before := After(spec, 0, init).stored, BranchesOver(spec, init, default, branches);
      if stored.None? then before
      else
        var s := stored.value;
        var shas := Shas(Reconcile(spec, s, s, env).pushes);
        BranchesWith(spec.job, Entries(spec, s, s, env), env.git, shas, default, before)
  }

  // That is what a reconcile does to them.
  lemma BranchesMove(spec: Spec, envs: seq<Env>, default: string, branches: map<string, Tree>, commits: seq<Commit>)
    requires default in branches && (forall e :: e in envs ==> |e.xs| == |spec.apis|)
    requires envs != [] && After(spec, 0, envs[..|envs| - 1]).stored.Some?
    ensures var init, env := envs[..|envs| - 1], envs[|envs| - 1];
            var s := After(spec, 0, init).stored.value;
            var shas, entries := Shas(Reconcile(spec, s, s, env).pushes), Entries(spec, s, s, env);
            Delivered(spec.job, entries, env.git, shas, default, BranchesOver(spec, init, default, branches),
                      BranchesOver(spec, envs, default, branches), commits,
                      commits + if shas == [] then [] else [Commit(shas[0], entries)])
  {
    hide Reconcile, BranchesWith, Delivered, Entries, After;
    var init, env := envs[..|envs| - 1], envs[|envs| - 1];
    var s := After(spec, 0, init).stored.value;
    DeliveredIs(spec.job, Entries(spec, s, s, env), env.git, Shas(Reconcile(spec, s, s, env).pushes), default,
                BranchesOver(spec, init, default, branches), commits);
  }

  /** A life that commits to a branch of its own never touches another, the default one included, and each
      of its commits is written over the default tree that the life found; otherwise it moves the default
      branch and no other, each commit from where the one before left it. */
  lemma {:induction false} OnlyOwnBranchMoves(spec: Spec, envs: seq<Env>, default: string, branches: map<string, Tree>)
    requires default in branches && forall e :: e in envs ==> |e.xs| == |spec.apis|
    ensures var after := BranchesOver(spec, envs, default, branches);
            var own := if spec.job.branch in {"", "main", "master"} then default else spec.job.branch;
            && (forall b :: b != own ==> (b in after <==> b in branches) && (b in branches ==> after[b] == branches[b]))
            && (envs != [] ==>
                 var init, env := envs[..|envs| - 1], envs[|envs| - 1];
                 var stored, before := After(spec, 0, init).stored, BranchesOver(spec, init, default, branches);
                 if stored.None? || Reconcile(spec, stored.value, stored.value, env).pushes == [] then after == before
                 else
                   var entries := Entries(spec, stored.value, stored.value, env);
                   var base := if own == default then before[default] else branches[default];
                   own in after && after[own] == CommittedTree(spec.job, entries, base, env.git))
  {
    hide Reconcile, CommittedTree, Entries, BranchesWith;
    if envs != [] {
      var init, env := envs[..|envs| - 1], envs[|envs| - 1];
      var stored := After(spec, 0, init).stored;
      OnlyOwnBranchMoves(spec, init, default, branches);
      if stored.Some? {
        var s := stored.value;
        DeliveredIs(spec.job, Entries(spec, s, s, env), env.git, Shas(Reconcile(spec, s, s, env).pushes), default,
                    BranchesOver(spec, init, default, branches), []);
      }
    }
  }

  /* What a reconcile does. */

  // A delivered commit has a SHA.
  predicate NamesCommit(env: Env) {
    env.git.delivered.Success? ==> env.git.delivered.value != ""
  }

  // A checked list carries one more call for an API that was called.
  lemma CheckShape(spec: Spec, sts: seq<RestStatus>, xs: seq<Exchange>, i: nat)
    requires |xs| == |spec.apis|
    ensures EntriesShape(spec, sts, CheckAll(spec.apis, sts, xs, Some(CALL_LIMIT)).0, i,
                         i < |spec.apis| && WasCalled(spec.apis, Aligned(spec.apis, sts), xs, i, Some(CALL_LIMIT)))
  {
    if i < |spec.apis| {
      CallCountsCalls(spec.apis, Aligned(spec.apis, sts), xs, i, Some(CALL_LIMIT));
    }
    if NoLeftover(spec.apis, sts) {
      NoLeftoverStays(spec.apis, sts, xs, Some(CALL_LIMIT));
    }
  }

  lemma DeliverHasShape(job: Job, own: Status<string>, s: Status<string>, env: Env)
    requires s.phase == Running && NamesCommit(env)
    requires own.restStatuses == [] ==> s.restStatuses == []
    ensures var step := Deliver(job, own, s, env);
            && |step.pushes| <= 1 && (step.pushes != [] ==> step.pushes[0].phase == Running) && step.stored.Some?
            && PushShape(s, step.stored.value, step.pushes, env.final.Applied?)
            && step.stored.value.restStatuses == if env.final.Applied? then own.restStatuses else s.restStatuses
  {
  }

  lemma ReportHasShape(own: Status<string>, s: Status<string>, phase: Phase, message: string, outcome: Outcome,
                       final: Attempt)
    requires s.phase == Running && phase != Done
    requires own.restStatuses == [] ==> s.restStatuses == []
    ensures var step := Report(own, s, phase, message, outcome, final);
            && step.pushes == [] && step.stored.Some?
            && PushShape(s, step.stored.value, [], final.Applied?)
            && step.stored.value.restStatuses == if final.Applied? then own.restStatuses else s.restStatuses
  {
  }

  lemma ProcessHasShape(spec: Spec, s: Status<string>, env: Env, i: nat)
    requires |spec.apis| == |env.xs| && s.phase == Running
    requires NamesCommit(env)
    ensures var step := Process(spec, s, s, env);
            && |step.pushes| <= 1 && (step.pushes != [] ==> step.pushes[0].phase == Running) && step.stored.Some?
            && PushShape(s, step.stored.value, step.pushes, env.final.Applied?)
            && EntriesShape(spec, s.restStatuses, step.stored.value.restStatuses, i,
                            Processes(spec, s, env, i) && env.final.Applied?)
  {
    var tripped := FirstTripped(s.restStatuses);
    if spec.apis == [] {
      DeliverHasShape(spec.job, s, s, env);
    } else if tripped.Some? {
      ReportHasShape(s, s, Failed, LimitMessage(tripped.value), Outcome(0, false), env.final);
    } else {
      var (entries, verdict) := CheckAll(spec.apis, s.restStatuses, env.xs, Some(CALL_LIMIT));
      var own := s.(restStatuses := entries);
      CheckShape(spec, s.restStatuses, env.xs, i);
      match verdict {
        case Broken(m) =>
          ReportHasShape(own, s, Failed, "REST API check failed: " + m, Outcome(5 * MINUTE, false), env.final);
        case NotMet =>
          ReportHasShape(own, s, Pending, "REST API conditions not met, waiting...", Outcome(2 * MINUTE, false),
                         env.final);
        case Met => DeliverHasShape(spec.job, own, s, env);
      }
    }
  }

  lemma StepHasShape(spec: Spec, s: Status<string>, env: Env, i: nat)
    requires |spec.apis| == |env.xs|
    requires NamesCommit(env)
    ensures StepShape(spec, s, env, i, Reconcile(spec, s, s, env))
  {
    if i < |spec.apis| == |s.restStatuses| && FirstTripped(s.restStatuses).None? {
      NoneTripped(s.restStatuses, i);
    }
    if !Expired(spec, env.now) && !Terminal(s) && (s.phase == Running || env.running.Applied?) {
      var running := if s.phase == Running then s
                     else WithPhase(s, s, Running, "Processing git commit", env.running.at);
      assert Reconcile(spec, s, s, env) == Process(spec, running, running, env);
      ProcessHasShape(spec, running, env, i);
    }
  }

  /** What holds throughout a life. Before the end every push went unrecorded; a Committed status
      tells of exactly one more, under its SHA; each push found the Running phase stored; and every
      call to API i is either counted in the status, where ten is the limit, or went uncounted. */
  ghost predicate Sound(spec: Spec, i: nat, w: World)
  {
    && (forall j :: 0 <= j < |w.pushes| ==> w.pushes[j].phase == Running)
    && match w.stored
       case None => |w.pushes| <= 1 + w.unrecorded && w.calls <= CALL_LIMIT + w.uncounted
       case Some(s) =>
         && (if s.phase == Done then
               |w.pushes| == 1 + w.unrecorded && s.result == w.pushes[|w.pushes| - 1].sha
             else
               |w.pushes| == w.unrecorded)
         && w.calls == Counted(spec, s.restStatuses, i) + w.uncounted
         && Counted(spec, s.restStatuses, i) <= CALL_LIMIT
         && NoLeftover(spec.apis, s.restStatuses)
  }

  lemma ExtendSound(spec: Spec, i: nat, w: World, env: Env, step: Step)
    requires |spec.apis| == |env.xs| && w.stored.Some? && Sound(spec, i, w)
    requires StepShape(spec, w.stored.value, env, i, step)
    ensures Sound(spec, i, Extend(w, step, Calls(spec, w.stored.value, env, i), env.final.Lost?))
  {
  }

  ghost predicate IsLife(spec: Spec, envs: seq<Env>) {
    forall e :: e in envs ==> |e.xs| == |spec.apis| && NamesCommit(e)
  }

  lemma {:induction false} LivesAreSound(spec: Spec, i: nat, envs: seq<Env>)
    requires IsLife(spec, envs)
    ensures Sound(spec, i, After(spec, i, envs))
  {
    if envs != [] {
      LivesAreSound(spec, i, envs[..|envs| - 1]);
      var w, env := After(spec, i, envs[..|envs| - 1]), envs[|envs| - 1];
      if w.stored.Some? {
        StepHasShape(spec, w.stored.value, env, i);
        ExtendSound(spec, i, w, env, Reconcile(spec, w.stored.value, w.stored.value, env));
      }
    }
  }

  /** Over a whole life: at most one push more than those whose final write was lost, each from a
      stored Running phase; a Committed status carries the SHA of a push; and each API is called at
      most ten times plus the calls whose final write was lost, hence at most ten times if none is. */
  lemma LifeIsBounded(spec: Spec, i: nat, envs: seq<Env>)
    requires IsLife(spec, envs)
    ensures var w := After(spec, i, envs);
            && |w.pushes| <= 1 + w.unrecorded
            && (forall j :: 0 <= j < |w.pushes| ==> w.pushes[j].phase == Running)
            && (w.stored.Some? && w.stored.value.phase == Done ==>
                 exists j :: 0 <= j < |w.pushes| && w.pushes[j].sha == w.stored.value.result)
            && w.calls <= 10 + w.uncounted
            && ((forall e :: e in envs ==> e.final.Applied?) ==> w.calls <= 10 && |w.pushes| <= 1)
  {
    LivesAreSound(spec, i, envs);
    if forall e :: e in envs ==> e.final.Applied? {
      NothingLost(spec, i, envs);
    }
  }

  lemma {:induction false} NothingLost(spec: Spec, i: nat, envs: seq<Env>)
    requires IsLife(spec, envs)
    requires forall e :: e in envs ==> e.final.Applied?
    ensures After(spec, i, envs).uncounted == 0 && After(spec, i, envs).unrecorded == 0
  {
    if envs != [] {
      NothingLost(spec, i, envs[..|envs| - 1]);
    }
  }

  /* Waiting. */

  // A reconcile in time whose writes are applied.
  predicate Undisturbed(spec: Spec, env: Env) {
    !Expired(spec, env.now) && env.running.Applied? && env.final.Applied?
  }

  // Every API answers in a way that can be judged, and some code or condition is not what the spec wants.
  ghost predicate NotYet(spec: Spec, env: Env)
    requires |env.xs| == |spec.apis|
  {
    && (forall i :: 0 <= i < |spec.apis| ==> !Breaks(spec.apis[i], env.xs[i]))
    && exists i :: 0 <= i < |spec.apis| && !Passes(spec.apis[i], env.xs[i])
  }

  // Any number of reconciles like that.
  ghost predicate Waits(spec: Spec, envs: seq<Env>) {
    forall e :: e in envs ==> |e.xs| == |spec.apis| && Undisturbed(spec, e) && NotYet(spec, e)
  }

  // Every API answers as the spec wants.
  ghost predicate AllWell(spec: Spec, env: Env)
    requires |env.xs| == |spec.apis|
  {
    forall i :: 0 <= i < |spec.apis| ==> Passes(spec.apis[i], env.xs[i])
  }

  // No entry is at the limit, and each carries n calls.
  ghost predicate Called(spec: Spec, sts: seq<RestStatus>, n: nat) {
    if n == 0 then sts == [] else |sts| == |spec.apis| && forall i :: 0 <= i < |sts| ==> sts[i].callCount == n
  }

  lemma CalledBelow(spec: Spec, sts: seq<RestStatus>, n: nat)
    requires Called(spec, sts, n) && spec.apis != []
    ensures Halted(spec.apis, sts) <==> n >= 10
    ensures n < 10 ==> forall i :: 0 <= i < |spec.apis| ==> !OverLimit(Aligned(spec.apis, sts)[i], Some(10))
  {
    if n >= 10 {
      assert sts[0].callCount >= 10;
    }
  }

  lemma NotYetWaits(spec: Spec, sts: seq<RestStatus>, env: Env, n: nat)
    requires |env.xs| == |spec.apis| && Called(spec, sts, n) && n < 10 && NotYet(spec, env)
    ensures MustWait(spec.apis, sts, env.xs) && !MustFail(spec.job, spec.apis, sts, env.xs, env.auth, env.git)
  {
    hide Breaks, Passes, OverLimit, Halted, AllWritable, Aligned;
    CalledBelow(spec, sts, n);
  }

  lemma AllWellDelivers(spec: Spec, sts: seq<RestStatus>, env: Env, n: nat)
    requires |env.xs| == |spec.apis| && Called(spec, sts, n) && n < 10 && AllWell(spec, env)
    requires env.auth.None? && env.git.cloned.None? && env.git.delivered.Success?
    requires AllWritable(spec.job.crypto, spec.job.files, BuiltFrom(spec.apis, sts, env.xs, Some(10)))
    requires GcAllRefsWritable(spec.job.crypto, spec.job.refs, env.git.inputs)
    ensures !MustWait(spec.apis, sts, env.xs) && !MustFail(spec.job, spec.apis, sts, env.xs, env.auth, env.git)
  {
    hide OverLimit, AllWritable, Aligned, BuiltFrom;
    if spec.apis != [] {
      CalledBelow(spec, sts, n);
    }
  }

  // The entries that a waiting reconcile stores carry one more call.
  lemma OneMoreCall(spec: Spec, s: Status<string>, env: Env, n: nat)
    requires |env.xs| == |spec.apis| && spec.apis != [] && Undisturbed(spec, env) && Starts(spec, s, env)
    requires Called(spec, s.restStatuses, n) && n < 10
    requires MustWait(spec.apis, s.restStatuses, env.xs)
    ensures var stored := Reconcile(spec, s, s, env).stored;
            stored.Some? && Called(spec, stored.value.restStatuses, n + 1)
  {
    hide CheckAll, Delivery, Aligned, MustWait;
    var entries := CheckAll(spec.apis, s.restStatuses, env.xs, Some(CALL_LIMIT)).0;
    AttemptIs(spec.job, spec.apis, s.restStatuses, env.xs, env.auth, env.git);
    forall i | 0 <= i < |spec.apis| ensures entries[i].callCount == n + 1 {
      CountGrows(spec, s.restStatuses, env, n, i);
    }
  }

  lemma CountGrows(spec: Spec, sts: seq<RestStatus>, env: Env, n: nat, i: nat)
    requires |env.xs| == |spec.apis| && i < |spec.apis| && Called(spec, sts, n) && n < 10
    requires !CheckAll(spec.apis, sts, env.xs, Some(CALL_LIMIT)).1.Broken?
    ensures CheckAll(spec.apis, sts, env.xs, Some(CALL_LIMIT)).0[i].callCount == n + 1
  {
    hide CheckUpTo, CheckOne;
    NoErrorCallsAll(spec.apis, Aligned(spec.apis, sts), env.xs, i, Some(CALL_LIMIT));
    CallCountsCalls(spec.apis, Aligned(spec.apis, sts), env.xs, i, Some(CALL_LIMIT));
  }

  /** As long as some condition is not met a resource waits: after each of up to ten such reconciles it is
      Pending, with nothing pushed and every API called once in each. */
  lemma {:induction false} Waiting(spec: Spec, envs: seq<Env>)
    requires |envs| <= 10 && Waits(spec, envs)
    ensures var w := After(spec, 0, envs);
            && w.pushes == [] && w.stored.Some?
            && w.stored.value.phase == (if envs == [] then Unset else Pending)
            && Called(spec, w.stored.value.restStatuses, |envs|)
  {
    hide Reconcile, NotYet, Called, MustWait, MustFail, Calls, Expired;
    if envs == [] {
      NothingCalled(spec);
    } else {
      var init, env := envs[..|envs| - 1], envs[|envs| - 1];
      Waiting(spec, init);
      WaitsOnce(spec, After(spec, 0, init).stored.value, env, |init|);
    }
  }

  lemma NothingCalled(spec: Spec)
    ensures Called(spec, [], 0)
  {
  }

  lemma WaitsOnce(spec: Spec, s: Status<string>, env: Env, n: nat)
    requires |env.xs| == |spec.apis| && Undisturbed(spec, env) && NotYet(spec, env)
    requires s.phase == (if n == 0 then Unset else Pending) && Called(spec, s.restStatuses, n) && n < 10
    ensures var step := Reconcile(spec, s, s, env);
            && step.pushes == [] && step.stored.Some? && step.stored.value.phase == Pending
            && Called(spec, step.stored.value.restStatuses, n + 1)
            && step.outcome == Outcome(2 * MINUTE, false)
  {
    hide Reconcile, Called, MustWait, MustFail, Breaks, Passes, Expired;
    NotYetWaits(spec, s.restStatuses, env, n);
    EndsAs(spec, s, s, env);
    OneMoreCall(spec, s, env, n);
  }

  // A delivery with all conditions met that nothing stands in the way of.
  ghost predicate Delivers(spec: Spec, held: seq<RestStatus>, env: Env)
    requires |env.xs| == |spec.apis|
  {
    && AllWell(spec, env) && env.auth.None?
    && env.git.cloned.None? && env.git.delivered.Success? && env.git.delivered.value != ""
    && AllWritable(spec.job.crypto, spec.job.files, BuiltFrom(spec.apis, held, env.xs, Some(10)))
    && GcAllRefsWritable(spec.job.crypto, spec.job.refs, env.git.inputs)
  }

  lemma CommitsOnce(spec: Spec, s: Status<string>, env: Env, n: nat)
    requires |env.xs| == |spec.apis| && Undisturbed(spec, env) && Delivers(spec, s.restStatuses, env)
    requires s.phase == (if n == 0 then Unset else Pending) && Called(spec, s.restStatuses, n) && n < 10
    ensures var step, sha := Reconcile(spec, s, s, env), env.git.delivered.value;
            && step.pushes == [Push(sha, Running)] && step.outcome == Outcome(0, false)
            && step.stored.Some? && step.stored.value.phase == Done && step.stored.value.result == sha
  {
    hide Reconcile, Called, MustWait, MustFail, AllWell, Expired, AllWritable, GcAllRefsWritable, BuiltFrom;
    AllWellDelivers(spec, s.restStatuses, env, n);
    EndsAs(spec, s, s, env);
  }

  /** Liveness over lives. However often a resource has waited, if not ten times, the first reconcile that
      finds every condition met and delivers ends it: Committed, with exactly one push, of that commit. */
  lemma WaitsThenCommits(spec: Spec, envs: seq<Env>, last: Env)
    requires |envs| <= 9 && Waits(spec, envs) && |last.xs| == |spec.apis| && Undisturbed(spec, last)
    requires var stored := After(spec, 0, envs).stored;
             stored.Some? && Delivers(spec, stored.value.restStatuses, last)
    ensures var w, sha := After(spec, 0, envs + [last]), last.git.delivered.value;
            && w.stored.Some? && w.stored.value.phase == Done && w.stored.value.result == sha
            && w.pushes == [Push(sha, Running)]
  {
    hide Reconcile, Called, Delivers, Calls, Expired;
    Waiting(spec, envs);
    assert (envs + [last])[..|envs|] == envs;
    CommitsOnce(spec, After(spec, 0, envs).stored.value, last, |envs|);
  }

  /** And if it has waited ten times, the next such reconcile gives up: Failed, with nothing pushed. */
  lemma GivesUpAfterTen(spec: Spec, envs: seq<Env>, last: Env)
    requires |envs| == 10 && Waits(spec, envs)
    requires |last.xs| == |spec.apis| && Undisturbed(spec, last)
    ensures var w := After(spec, 0, envs + [last]);
            w.stored.Some? && w.stored.value.phase == Failed && w.pushes == []
  {
    hide Reconcile, Breaks, Passes, Called, MustWait, Calls, Expired, AllWritable, GcAllRefsWritable, BuiltFrom;
    Waiting(spec, envs);
    assert (envs + [last])[..|envs|] == envs;
    var s := After(spec, 0, envs).stored.value;
    assert NotYet(spec, envs[0]);
    CalledBelow(spec, s.restStatuses, 10);
    EndsAs(spec, s, s, last);
  }

  lemma PushFollowsCheck(spec: Spec, s: Status<string>, env: Env)
    requires |env.xs| == |spec.apis| && spec.apis != []
    requires Reconcile(spec, s, s, env).pushes != []
    ensures CheckAll(spec.apis, s.restStatuses, env.xs, Some(CALL_LIMIT)).1.Met?
  {
  }

  /** Freshness over lives: whenever a commit is pushed with REST APIs configured, every API was called
      in that reconcile and met its condition, and the outputs the files draw on are exactly those
      the calls produced. */
  lemma PushedOutputsAreFresh(spec: Spec, envs: seq<Env>, env: Env)
    requires spec.apis != [] && IsLife(spec, envs) && |env.xs| == |spec.apis|
    requires After(spec, 0, envs).stored.Some?
    requires Reconcile(spec, After(spec, 0, envs).stored.value, After(spec, 0, envs).stored.value, env).pushes != []
    ensures var s := After(spec, 0, envs).stored.value;
            && Outputs(Entries(spec, s, s, env)) == Produced(spec.apis, env.xs)
            && AllMet(spec.apis, s.restStatuses, env.xs, Some(CALL_LIMIT))
  {
    hide Reconcile, CheckAll, Produced, Outputs, AllMet, Calls;
    var s := After(spec, 0, envs).stored.value;
    LivesAreSound(spec, 0, envs);
    PushFollowsCheck(spec, s, env);
    AllApisOutputsAreFresh(spec.apis, s.restStatuses, env.xs, Some(CALL_LIMIT));
    MetIsAllMet(spec.apis, s.restStatuses, env.xs, Some(CALL_LIMIT));
  }

  /** The file itself: in the tree of every commit of a life, an overwriting all-APIs file that nothing
      later in the commit writes to holds exactly the outputs of this reconcile's calls, in spec order and
      joined by the delimiter, sealed if encryption asks for it. */
  lemma CommittedFilesAreFresh(spec: Spec, envs: seq<Env>, env: Env, cloned: Tree, i: nat)
    requires spec.apis != [] && IsLife(spec, envs) && |env.xs| == |spec.apis|
    requires After(spec, 0, envs).stored.Some?
    requires Reconcile(spec, After(spec, 0, envs).stored.value, After(spec, 0, envs).stored.value, env).pushes != []
    requires i < |spec.job.files| && IsAllApisFile(spec.job.files[i])
    requires !WrittenLater(spec.job.crypto, spec.job.files, GcAllPuts(spec.job.refs, env.git.inputs), i)
    ensures var s := After(spec, 0, envs).stored.value;
            FileIs(spec.job.crypto, spec.job.files, env.git.draws,
                   CommittedTree(spec.job, Entries(spec, s, s, env), cloned, env.git), i,
                   Join(Produced(spec.apis, env.xs), Delimiter(spec.job.files[i].source)))
  {
    hide Reconcile, CheckAll, Produced, GcFold, GcAllPuts, FileIs, WrittenLater, IsAllApisFile, Calls;
    var s := After(spec, 0, envs).stored.value;
    LivesAreSound(spec, 0, envs);
    PushFollowsCheck(spec, s, env);
    CommittedFileIsFresh(spec.job.crypto, cloned, spec.job.files, env.git.draws,
                         GcAllPuts(spec.job.refs, env.git.inputs), spec.apis, s.restStatuses, env.xs,
                         Some(CALL_LIMIT), i);
  }
}
