/** The life of a one-shot PullRequest: any sequence of reconciles from its creation on, with lost
    writes, crashes and outdated reads anywhere. */
module PullRequestLives {
  import opened Wrappers
  import opened Api
  import opened StatusServer
  import opened RestApis
  import opened Worktree
  import opened ResourceRefs
  import opened FreshFiles
  import opened RepositoryUrl
  import opened Forge
  import opened UnscheduledPullRequest

  const CREATED := Status(NO_PR, Unset, "", None, [], None, None, [])

  // What has happened since the creation. A pull request is unrecorded when the write that should have
  // told of it was lost.
  datatype World = World(stored: Option<Status<PrRef>>, pulls: seq<PrRef>, unrecorded: nat)

  function Extend(w: World, step: Step, lost: bool): World {
    World(step.stored, w.pulls + step.created, w.unrecorded + if lost then |step.created| else 0)
  }

  function After(spec: Spec, envs: seq<Env>): World
    requires forall e :: e in envs ==> |e.xs| == |spec.apis|
  {
    if envs == [] then World(Some(CREATED), [], 0)
    else
      var w, env := After(spec, envs[..|envs| - 1]), envs[|envs| - 1];
      if w.stored.None? then w else Extend(w, Reconcile(spec, w.stored.value, env), env.final.Lost?)
  }

  // What a reconcile does to the fields that lives are about.
  ghost predicate StepShape(s: Status<PrRef>, env: Env, step: Step) {
    && |step.created| <= 1
    && (env.stale.Some? || Terminal(s) ==> step.created == [] && (step.stored.Some? ==> step.stored.value == s))
    && (step.created != [] ==> step.stored.Some? && env.running.Applied?)
    && (step.stored.Some? ==>
         var t := step.stored.value;
         if step.created != [] && env.final.Applied? then t.phase == Done && t.result == step.created[0]
         else t.phase == Done ==> t == s)
  }

  // Nothing is left over by a reconcile that found nothing left over.
  lemma StepLeavesNothingOver(spec: Spec, s: Status<PrRef>, env: Env)
    requires |spec.apis| == |env.xs| && NoLeftover(spec.apis, s.restStatuses)
    ensures var t := Reconcile(spec, s, env).stored; t.Some? ==> NoLeftover(spec.apis, t.value.restStatuses)
  {
    hide CheckAll, NoLeftover;
    NoLeftoverStays(spec.apis, s.restStatuses, env.xs, None);
  }

  /** Outdated reads are harmless. Every write is a compare-and-swap, and the Running write comes before
      the creation: a reconcile that started from an outdated copy creates nothing and stores nothing,
      and Created and Failed are absorbing until deletion whatever copy is read. */
  lemma StepHasShape(spec: Spec, s: Status<PrRef>, env: Env)
    requires |spec.apis| == |env.xs|
    ensures StepShape(s, env, Reconcile(spec, s, env))
  {
    hide Expired, CheckAll, Creation;
  }

  /* How a reconcile ends. */

  // Is there anything to do for this copy?
  predicate Starts(spec: Spec, copy: Status<PrRef>, env: Env) {
    !Expired(spec, env.now) && copy.phase !in {Done, Failed}
  }

  /** With nothing to do, nothing is created and nothing changes, but that a deletion which succeeds removes
      the resource; it comes back after a minute. */
  lemma StopsEarly(spec: Spec, s: Status<PrRef>, env: Env)
    requires |env.xs| == |spec.apis| && !Starts(spec, Copy(s, env), env)
    ensures var step, gone := Reconcile(spec, s, env), Expired(spec, env.now) && env.deleted;
            && step.created == [] && step.stored == (if gone then None else Some(s))
            && step.outcome == if gone then Outcome(0, false) else Outcome(MINUTE, Expired(spec, env.now))
  {
    hide CheckAll, Process;
  }

  // What a reconcile of this copy makes of what the server holds, from what came back alone.
  ghost predicate Ended(spec: Spec, held: seq<RestStatus>, s: Status<PrRef>, env: Env, step: Step)
    requires |env.xs| == |spec.apis|
  {
    var fails := PrMustFail(spec.job, spec.apis, held, env.xs, env.auth, env.forge);
    var waits, crashes := PrMustWait(spec.apis, held, env.xs),
                          MustCrash(spec.job, spec.apis, held, env.xs, env.auth, env.forge);
    var passed := AllPass(spec.apis, Aligned(spec.apis, held), env.xs, |spec.apis|, None);
    if env.stale.Some? || (passed && env.running.Lost?) then
      && step.created == [] && step.stored == Some(s)
      && step.outcome == if passed then Outcome(0, true) else Outcome(5 * MINUTE, false)
    else
      && step.stored.Some?
      && step.created == (if fails || waits || crashes then [] else [env.forge.answer.value])
      && step.stored.value.phase == (if crashes || (passed && env.final.Lost?) then Running
                                     else if env.final.Lost? then s.phase
                                     else if fails then Failed else if waits then Pending else Done)
      && (step.stored.value.phase == Done != s.phase ==> step.stored.value.result == env.forge.answer.value)
      && step.outcome == if crashes then Outcome(0, true) else if fails || waits then Outcome(5 * MINUTE, false)
                         else Outcome(0, env.final.Lost?)
  }

  lemma ProcessEnds(spec: Spec, held: seq<RestStatus>, own: Status<PrRef>, s: Status<PrRef>, env: Env)
    requires |env.xs| == |spec.apis|
    requires spec.apis == [] || CheckAll(spec.apis, held, env.xs, None).1.Met?
    requires own.restStatuses == BuiltFrom(spec.apis, held, env.xs, None)
    ensures Ended(spec, held, s, env, Process(spec.job, own, s, env))
  {
    hide CheckAll, Creation, BuiltFrom, PrMustFail, PrMustWait, MustCrash, AllPass, AnyBreaks;
    PrAttemptIs(spec.job, spec.apis, held, env.xs, env.auth, env.forge);
    VerdictIff(spec.apis, held, env.xs, None);
    if spec.apis == [] {
      NothingToMeet(held, env.xs);
    }
  }

  /** How the rest end. The stored phase is Failed exactly when the check broke or, with all conditions met,
      credentials are missing or there is no pull request and no panic; Pending exactly when every answer could
      be judged and some condition is not met; otherwise Created, with the one pull request. Writes on an
      outdated copy, and what comes after a lost Running write or a panic, do not happen. */
  lemma EndsAs(spec: Spec, s: Status<PrRef>, env: Env)
    requires |env.xs| == |spec.apis| && Starts(spec, Copy(s, env), env)
    ensures Ended(spec, Copy(s, env).restStatuses, s, env, Reconcile(spec, s, env))
  {
    hide Process, CheckAll, Opens, Panics, AllPass, AnyBreaks;
    var copy := Copy(s, env);
    if spec.apis == [] {
      ProcessEnds(spec, copy.restStatuses, copy, s, env);
    } else {
      VerdictIff(spec.apis, copy.restStatuses, env.xs, None);
      var (entries, verdict) := CheckAll(spec.apis, copy.restStatuses, env.xs, None);
      if verdict.Met? {
        ProcessEnds(spec, copy.restStatuses, copy.(restStatuses := entries), s, env);
      }
    }
  }

  ghost predicate Sound(spec: Spec, w: World) {
    match w.stored
    case None => |w.pulls| <= 1 + w.unrecorded
    case Some(s) =>
      && NoLeftover(spec.apis, s.restStatuses)
      && if s.phase == Done then |w.pulls| == 1 + w.unrecorded && s.result == w.pulls[|w.pulls| - 1]
         else |w.pulls| == w.unrecorded
  }

  lemma {:induction false} LivesAreSound(spec: Spec, envs: seq<Env>)
    requires forall e :: e in envs ==> |e.xs| == |spec.apis|
    ensures Sound(spec, After(spec, envs))
  {
    hide Reconcile;
    if envs != [] {
      LivesAreSound(spec, envs[..|envs| - 1]);
      var w := After(spec, envs[..|envs| - 1]);
      if w.stored.Some? {
        StepHasShape(spec, w.stored.value, envs[|envs| - 1]);
        StepLeavesNothingOver(spec, w.stored.value, envs[|envs| - 1]);
      }
    }
  }

  /** Over a whole life there is at most one pull request more than those whose final write was lost,
      and a Created status carries one that was created: even when copies are out of date. */
  lemma LifeIsBounded(spec: Spec, envs: seq<Env>)
    requires forall e :: e in envs ==> |e.xs| == |spec.apis|
    ensures var w := After(spec, envs);
            && |w.pulls| <= 1 + w.unrecorded
            && (w.stored.Some? && w.stored.value.phase == Done ==> w.stored.value.result in w.pulls)
            && ((forall e :: e in envs ==> e.final.Applied?) ==> |w.pulls| <= 1)
  {
    LivesAreSound(spec, envs);
    if forall e :: e in envs ==> e.final.Applied? {
      NothingLost(spec, envs);
    }
  }

  lemma {:induction false} NothingLost(spec: Spec, envs: seq<Env>)
    requires forall e :: e in envs ==> |e.xs| == |spec.apis| && e.final.Applied?
    ensures After(spec, envs).unrecorded == 0
  {
    if envs != [] {
      NothingLost(spec, envs[..|envs| - 1]);
    }
  }

  /** A live resource always gets another look: every reconcile errs, asks for a delay, or changes the
      status. */
  lemma NeverStranded(spec: Spec, s: Status<PrRef>, env: Env)
    requires |spec.apis| == |env.xs|
    ensures var step := Reconcile(spec, s, env);
            step.stored != Some(s) || step.outcome.failed || step.outcome.requeueAfter > 0
  {
    hide Expired, CheckAll, Creation;
  }

  /* Waiting. */

  // A reconcile in time, of a current copy, whose writes are applied.
  predicate Undisturbed(spec: Spec, env: Env) {
    !Expired(spec, env.now) && env.stale.None? && env.running.Applied? && env.final.Applied?
  }

  // Every API answers in a way that can be judged, and some code or condition is not what the spec wants.
  ghost predicate NotYet(spec: Spec, env: Env)
    requires |env.xs| == |spec.apis|
  {
    && (forall i :: 0 <= i < |spec.apis| ==> !Breaks(spec.apis[i], env.xs[i]))
    && exists i :: 0 <= i < |spec.apis| && !Passes(spec.apis[i], env.xs[i])
  }

  ghost predicate Waits(spec: Spec, envs: seq<Env>) {
    forall e :: e in envs ==> |e.xs| == |spec.apis| && Undisturbed(spec, e) && NotYet(spec, e)
  }

  // Every API answers as the spec wants, and nothing stands in the way of the pull request.
  ghost predicate Delivers(spec: Spec, held: seq<RestStatus>, env: Env)
    requires |env.xs| == |spec.apis|
  {
    && (forall i :: 0 <= i < |spec.apis| ==> Passes(spec.apis[i], env.xs[i]))
    && env.auth.None? && Opens(spec.job, BuiltFrom(spec.apis, held, env.xs, None), env.forge)
  }

  lemma WaitsOnce(spec: Spec, s: Status<PrRef>, env: Env)
    requires |env.xs| == |spec.apis| && Undisturbed(spec, env) && NotYet(spec, env) && s.phase in {Unset, Pending}
    ensures var step := Reconcile(spec, s, env);
            && step.created == [] && step.stored.Some? && step.stored.value.phase == Pending
            && step.outcome == Outcome(5 * MINUTE, false)
  {
    hide Reconcile, Breaks, Passes, Opens, Panics, Expired, Aligned;
    EndsAs(spec, s, env);
  }

  lemma NothingInTheWay(spec: Spec, held: seq<RestStatus>, env: Env)
    requires |env.xs| == |spec.apis| && Delivers(spec, held, env)
    ensures env.forge.answer.Success? && AllPass(spec.apis, Aligned(spec.apis, held), env.xs, |spec.apis|, None)
    ensures !PrMustWait(spec.apis, held, env.xs)
    ensures !PrMustFail(spec.job, spec.apis, held, env.xs, env.auth, env.forge)
    ensures !MustCrash(spec.job, spec.apis, held, env.xs, env.auth, env.forge)
  {
    hide Committed, ParseRepository, Aligned, BuiltFrom;
  }

  lemma CreatesOnce(spec: Spec, s: Status<PrRef>, env: Env)
    requires |env.xs| == |spec.apis| && Undisturbed(spec, env) && Delivers(spec, s.restStatuses, env)
    requires s.phase in {Unset, Pending}
    ensures env.forge.answer.Success?
    ensures var step, pr := Reconcile(spec, s, env), env.forge.answer.value;
            && step.created == [pr] && step.outcome == Outcome(0, false)
            && step.stored.Some? && step.stored.value.phase == Done && step.stored.value.result == pr
  {
    hide Reconcile, Delivers, AllPass, PrMustWait, PrMustFail, MustCrash, Expired;
    NothingInTheWay(spec, s.restStatuses, env);
    EndsAs(spec, s, env);
  }

  /** As long as some condition is not met a resource waits, for there is no limit to it here: after any number
      of such reconciles it is Pending, with no pull request. */
  lemma {:induction false} Waiting(spec: Spec, envs: seq<Env>)
    requires Waits(spec, envs)
    ensures var w := After(spec, envs);
            w.pulls == [] && w.stored.Some? && w.stored.value.phase == if envs == [] then Unset else Pending
  {
    hide Reconcile, NotYet, Expired;
    if envs != [] {
      var init := envs[..|envs| - 1];
      Waiting(spec, init);
      WaitsOnce(spec, After(spec, init).stored.value, envs[|envs| - 1]);
    }
  }

  /** Liveness over lives. However often a resource has waited, the first reconcile that finds every condition
      met and is granted its pull request ends it: Created, with exactly that one. */
  lemma WaitsThenCreates(spec: Spec, envs: seq<Env>, last: Env)
    requires Waits(spec, envs) && |last.xs| == |spec.apis| && Undisturbed(spec, last)
    requires var stored := After(spec, envs).stored;
             stored.Some? && Delivers(spec, stored.value.restStatuses, last)
    ensures last.forge.answer.Success?
    ensures var w, pr := After(spec, envs + [last]), last.forge.answer.value;
            w.stored.Some? && w.stored.value.phase == Done && w.stored.value.result == pr && w.pulls == [pr]
  {
    hide Reconcile, Delivers, Expired;
    Waiting(spec, envs);
    assert (envs + [last])[..|envs|] == envs;
    CreatesOnce(spec, After(spec, envs).stored.value, last);
  }

  lemma CreationFollowsCheck(spec: Spec, s: Status<PrRef>, env: Env)
    requires |env.xs| == |spec.apis| && spec.apis != [] && Creates(spec, s, env)
    ensures env.stale.None? && CheckAll(spec.apis, s.restStatuses, env.xs, None).1.Met?
  {
    hide Expired, CheckAll, Creation;
  }

  // A pull request comes from a reconcile that gets to the creation.
  lemma CreatedCreates(spec: Spec, s: Status<PrRef>, env: Env)
    requires |env.xs| == |spec.apis| && Reconcile(spec, s, env).created != []
    ensures Creates(spec, s, env)
  {
    hide Expired, CheckAll, Creation;
  }

  /** Freshness over lives. Whenever a reconcile of a life gets to the creation of a pull request with REST
      APIs configured, every API was called in it and met its condition, and the outputs the files draw on
      are exactly those the calls produced. */
  lemma CreatedFromFreshOutputs(spec: Spec, envs: seq<Env>, env: Env)
    requires spec.apis != [] && |env.xs| == |spec.apis| && forall e :: e in envs ==> |e.xs| == |spec.apis|
    requires After(spec, envs).stored.Some?
    requires var s := After(spec, envs).stored.value; Creates(spec, s, env) || Reconcile(spec, s, env).created != []
    ensures var s := After(spec, envs).stored.value;
            && Outputs(Entries(spec, s, env)) == Produced(spec.apis, env.xs)
            && AllMet(spec.apis, s.restStatuses, env.xs, None)
  {
    hide Reconcile, CheckAll, Produced, Outputs, AllMet, Creates;
    var s := After(spec, envs).stored.value;
    if Reconcile(spec, s, env).created != [] {
      CreatedCreates(spec, s, env);
    }
    LivesAreSound(spec, envs);
    CreationFollowsCheck(spec, s, env);
    AllApisOutputsAreFresh(spec.apis, s.restStatuses, env.xs, None);
    MetIsAllMet(spec.apis, s.restStatuses, env.xs, None);
  }

  /** The file itself: in every head branch that a life pushes, an overwriting all-APIs file that nothing
      later in the commit writes to holds exactly the outputs of this reconcile's calls, in spec order and
      joined by the delimiter, sealed if encryption asks for it. */
  lemma PushedFilesAreFresh(spec: Spec, envs: seq<Env>, env: Env, cloned: Tree, i: nat)
    requires spec.apis != [] && |env.xs| == |spec.apis| && forall e :: e in envs ==> |e.xs| == |spec.apis|
    requires After(spec, envs).stored.Some? && Creates(spec, After(spec, envs).stored.value, env)
    requires i < |spec.job.files| && IsAllApisFile(spec.job.files[i])
    requires !WrittenLater(spec.job.crypto, spec.job.files, PrAllPuts(spec.job.refs, env.forge.inputs), i)
    ensures var s := After(spec, envs).stored.value;
            FileIs(spec.job.crypto, spec.job.files, env.forge.draws,
                   HeadTree(spec.job, Entries(spec, s, env), cloned, env.forge), i,
                   Join(Produced(spec.apis, env.xs), Delimiter(spec.job.files[i].source)))
  {
    hide Reconcile, CheckAll, Produced, PrFold, PrAllPuts, FileIs, WrittenLater, IsAllApisFile, Creates;
    var s := After(spec, envs).stored.value;
    LivesAreSound(spec, envs);
    CreationFollowsCheck(spec, s, env);
    CommittedFileIsFresh(spec.job.crypto, cloned, spec.job.files, env.forge.draws,
                         PrAllPuts(spec.job.refs, env.forge.inputs), spec.apis, s.restStatuses, env.xs, None, i);
  }

  /* No circuit breaker. */

  predicate Calls(spec: Spec, s: Status<PrRef>, env: Env, i: nat)
    requires |env.xs| == |spec.apis| && i < |spec.apis|
  {
    var copy := Copy(s, env);
    && !Expired(spec, env.now) && !Terminal(copy)
    && WasCalled(spec.apis, Aligned(spec.apis, copy.restStatuses), env.xs, i, None)
  }

  function CallsOver(spec: Spec, envs: seq<Env>, i: nat): nat
    requires (forall e :: e in envs ==> |e.xs| == |spec.apis|) && i < |spec.apis|
  {
    if envs == [] then 0
    else
      var w, env := After(spec, envs[..|envs| - 1]), envs[|envs| - 1];
      CallsOver(spec, envs[..|envs| - 1], i) +
      if w.stored.Some? && Calls(spec, w.stored.value, env, i) then 1 else 0
  }

  function Highest(codes: seq<int>): (h: nat)
    ensures forall i :: 0 <= i < |codes| ==> codes[i] <= h
  {
    if codes == [] then 0
    else
      var init := codes[..|codes| - 1];
      assert forall i :: 0 <= i < |init| ==> init[i] == codes[i];
      Max(codes[|codes| - 1], Highest(init))
  }

  // A status code the API does not accept.
  function Unwanted(api: RestApi): (code: nat)
    ensures !AcceptedCode(api, code)
  {
    if |api.expectedCodes| > 0 then Highest(api.expectedCodes) + 1
    else if api.maxStatusCode > 0 then api.maxStatusCode + 1 else 400
  }

  // A reconcile in time in which every API answers with such a code and every write is applied.
  function Refused(spec: Spec): (env: Env)
    ensures |env.xs| == |spec.apis|
  {
    var now := spec.created + if spec.ttlMinutes.Some? then Deadline(spec) else 0;
    Env(None, now, true,
        seq(|spec.apis|, i requires 0 <= i < |spec.apis| =>
          Exchange(Answer(Unwanted(spec.apis[i]), "", ConditionFalse), now)),
        Applied(now), None, NOTHING_MADE, Applied(now))
  }

  function Deadline(spec: Spec): Time
    requires spec.ttlMinutes.Some?
  {
    Int64(spec.ttlMinutes.value * MINUTE)
  }

  lemma {:induction false} RefusedIsNotMet(apis: seq<RestApi>, sts: seq<RestStatus>, xs: seq<Exchange>, n: nat)
    requires n <= |apis| == |sts| == |xs|
    requires forall i :: 0 <= i < |apis| ==> xs[i].response.Answer? && !AcceptedCode(apis[i], xs[i].response.code)
    ensures CheckUpTo(apis, sts, xs, n, None).1 == if n == 0 then Met else NotMet
  {
    if n > 0 {
      RefusedIsNotMet(apis, sts, xs, n - 1);
    }
  }

  lemma RefusedOnce(spec: Spec, s: Status<PrRef>)
    requires spec.apis != [] && !Terminal(s)
    ensures var env := Refused(spec);
            && Calls(spec, s, env, 0)
            && Reconcile(spec, s, env).stored.Some? && Reconcile(spec, s, env).stored.value.phase == Pending
  {
    var xs := Refused(spec).xs;
    RefusedIsNotMet(spec.apis, Aligned(spec.apis, s.restStatuses), xs, |spec.apis|);
  }

  /** Nothing bounds the calls of a PullRequest: for every n there is a life, without a single lost
      write, that calls the first API n times. */
  lemma {:induction false} CallsAreUnbounded(spec: Spec, n: nat)
    requires spec.apis != []
    ensures var envs := seq(n, _ => Refused(spec));
            && CallsOver(spec, envs, 0) == n
            && After(spec, envs).stored.Some? && !Terminal(After(spec, envs).stored.value)
  {
    if n > 0 {
      CallsAreUnbounded(spec, n - 1);
      assert seq(n, _ => Refused(spec))[..n - 1] == seq(n - 1, _ => Refused(spec));
      RefusedOnce(spec, After(spec, seq(n - 1, _ => Refused(spec))).stored.value);
    }
  }
}
