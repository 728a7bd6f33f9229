/** Whole runs of a scheduled PullRequest: they are scheduled runs too, with pull requests for
    commits. */
module PullRequestRuns {
  import opened Wrappers
  import opened Api
  import opened Ticks
  import opened RestApis
  import opened Worktree
  import opened ResourceRefs
  import opened FreshFiles
  import opened RepositoryUrl
  import opened Forge
  import opened ScheduleGate
  import opened ScheduledRuns
  import opened ScheduledPullRequest

  ghost predicate WellFormed(spec: Spec, envs: seq<Env>) {
    forall e :: e in envs ==> |e.xs| == |spec.apis|
  }

  function Steps(spec: Spec, epoch: Time, envs: seq<Env>): (r: seq<Step<PrRef>>)
    requires WellFormed(spec, envs)
    ensures |r| == |envs|
  {
    if envs == [] then []
    else
      var init := Steps(spec, epoch, envs[..|envs| - 1]);
      init + [Reconcile(spec, After(RulesOf(spec), epoch, init).status, envs[|envs| - 1])]
  }

  function WorldAfter(spec: Spec, epoch: Time, envs: seq<Env>): World<PrRef>
    requires WellFormed(spec, envs)
  {
    After(RulesOf(spec), epoch, Steps(spec, epoch, envs))
  }

  // No reconcile starts before the one before it ended.
  predicate Chronological(epoch: Time, envs: seq<Env>) {
    envs == [] ||
    var n := |envs| - 1;
    Chronological(epoch, envs[..n]) && InOrder(if n == 0 then epoch else envs[n - 1].end, envs[n])
  }

  /** Any chronological sequence of reconciles is a scheduled run. */
  lemma {:induction false} PullRequestRunsAreRuns(spec: Spec, epoch: Time, envs: seq<Env>)
    requires WellFormed(spec, envs) && Chronological(epoch, envs)
    ensures IsRun(RulesOf(spec), epoch, Steps(spec, epoch, envs))
    ensures WorldAfter(spec, epoch, envs).clock <= if envs == [] then epoch else envs[|envs| - 1].end
  {
    if envs != [] {
      var init, env := envs[..|envs| - 1], envs[|envs| - 1];
      PullRequestRunsAreRuns(spec, epoch, init);
      var w := WorldAfter(spec, epoch, init);
      assert InOrder(w.clock, env);
      ReconcileIsShaped(spec, w.status, env, w.clock);
      RunSnoc(RulesOf(spec), epoch, Steps(spec, epoch, init), Reconcile(spec, w.status, env));
    }
  }

  // The last reconcile of a sequence, as a step.
  lemma LastStep(spec: Spec, epoch: Time, envs: seq<Env>) returns (step: Step<PrRef>)
    requires WellFormed(spec, envs) && envs != [] && Chronological(epoch, envs)
    ensures var init, env := envs[..|envs| - 1], envs[|envs| - 1];
            var w := WorldAfter(spec, epoch, init);
            && step == Reconcile(spec, w.status, env)
            && WorldAfter(spec, epoch, envs) == Extend(w, step)
            && TimerShaped(RulesOf(spec), w.status, step)
            && (step.action.Execute? ==>
                 (step.action.rescheduled <==> env.next.Applied? && !step.outcome.failed))
  {
    hide Reconcile, Shaped, TimerShaped, Timely;
    var init, env := envs[..|envs| - 1], envs[|envs| - 1];
    PullRequestRunsAreRuns(spec, epoch, init);
    var w := WorldAfter(spec, epoch, init);
    step := Reconcile(spec, w.status, env);
    ReconcileIsShaped(spec, w.status, env, if init == [] then epoch else init[|init| - 1].end);
    RunSnoc(RulesOf(spec), epoch, Steps(spec, epoch, init), step);
  }

  /* Lost writes. */

  // Executions whose write of the next time failed or was interrupted, by a crash among other things.
  function LostNext(spec: Spec, epoch: Time, envs: seq<Env>): nat
    requires WellFormed(spec, envs)
  {
    if envs == [] then 0
    else
      var init, env := envs[..|envs| - 1], envs[|envs| - 1];
      var step := Reconcile(spec, WorldAfter(spec, epoch, init).status, env);
      LostNext(spec, epoch, init) +
      if step.action.Execute? && (env.next.Lost? || step.outcome.failed) then 1 else 0
  }

  lemma UnrescheduledSnoc(log: seq<Action>, a: Action)
    ensures Unrescheduled(log + [a]) == Unrescheduled(log) + if a.Execute? && !a.rescheduled then 1 else 0
  {
    assert (log + [a])[..|log|] == log;
  }

  /** The executions that did not move the next time are exactly those that lost the write of it. */
  lemma {:induction false} UnrescheduledAreLost(spec: Spec, epoch: Time, envs: seq<Env>)
    requires WellFormed(spec, envs) && Chronological(epoch, envs)
    ensures Unrescheduled(WorldAfter(spec, epoch, envs).actions) == LostNext(spec, epoch, envs)
  {
    hide Reconcile, InOrder, TimerShaped;
    if envs != [] {
      UnrescheduledAreLost(spec, epoch, envs[..|envs| - 1]);
      var step := LastStep(spec, epoch, envs);
      UnrescheduledSnoc(WorldAfter(spec, epoch, envs[..|envs| - 1]).actions, step.action);
    }
  }

  // A repository whose URL parses does not crash.
  lemma ParsedNeverCrashes(spec: Spec, s: Status<PrRef>, env: Env, clock: Time)
    requires |env.xs| == |spec.apis| && InOrder(clock, env) && !ParseRepository(spec.job.repository).Panic?
    ensures var step := Reconcile(spec, s, env); step.action.Execute? ==> !step.outcome.failed
  {
    hide Reconcile, InOrder, ParseRepository, AllWritable, PrAllRefsWritable, BuiltFrom, Creates;
    ReconcileIsShaped(spec, s, env, clock);
  }

  lemma {:induction false} NothingLost(spec: Spec, epoch: Time, envs: seq<Env>)
    requires WellFormed(spec, envs) && Chronological(epoch, envs) && forall e :: e in envs ==> e.next.Applied?
    requires !ParseRepository(spec.job.repository).Panic?
    ensures LostNext(spec, epoch, envs) == 0
  {
    hide Reconcile, InOrder, ParseRepository;
    if envs != [] {
      var init, env := envs[..|envs| - 1], envs[|envs| - 1];
      NothingLost(spec, epoch, init);
      ParsedNeverCrashes(spec, WorldAfter(spec, epoch, init).status, env,
                         if init == [] then epoch else init[|init| - 1].end);
    }
  }

  /** A run creates at most as many pull requests as it has executions, and has at most one of these, plus
      one for each tick since the first, plus one for each whose write of the next time failed or was
      interrupted; so when nothing is lost, and the repository's URL does not crash the parser, the ticks
      alone bound it. The status names only pull requests that the run created. */
  lemma PullsAreAccountedFor(spec: Spec, epoch: Time, envs: seq<Env>)
    requires WellFormed(spec, envs) && Chronological(epoch, envs) && spec.schedule.Success?
    requires First(WorldAfter(spec, epoch, envs).actions).Some?
    ensures var w := WorldAfter(spec, epoch, envs);
            var ticks := Count(spec.schedule.value, First(w.actions).value, w.actions[|w.actions| - 1].at);
            && |w.produced| <= Executions(w.actions) <= 1 + ticks + LostNext(spec, epoch, envs)
            && ((forall e :: e in envs ==> e.next.Applied?) && !ParseRepository(spec.job.repository).Panic? ==>
                 Executions(w.actions) <= 1 + ticks)
            && (w.status.phase == Done ==> w.status.result in w.produced)
            && AllTruthful(NO_PR, w.produced, w.status.history)
  {
    hide Reconcile, ParseRepository, Count, Executions, Unrescheduled, First, Steps, After, Chronological, LostNext;
    PullRequestRunsAreRuns(spec, epoch, envs);
    RunIsLegal(RulesOf(spec), epoch, Steps(spec, epoch, envs));
    TickAccounting(spec.schedule.value, WorldAfter(spec, epoch, envs).actions);
    StatusIsTruthful(RulesOf(spec), epoch, Steps(spec, epoch, envs));
    UnrescheduledAreLost(spec, epoch, envs);
    if (forall e :: e in envs ==> e.next.Applied?) && !ParseRepository(spec.job.repository).Panic? {
      NothingLost(spec, epoch, envs);
    }
  }

  /* Quiescence, lateness and wake-ups. */

  // Two runs that leave the same status, pull requests and records, and in which as many reconciles asked
  // for a status update.
  ghost predicate SameButTime(spec: Spec, epoch: Time, a: seq<Env>, b: seq<Env>)
    requires WellFormed(spec, a) && WellFormed(spec, b)
  {
    var w, v := WorldAfter(spec, epoch, a), WorldAfter(spec, epoch, b);
    v.status == w.status && v.produced == w.produced && v.recorded == w.recorded && v.writes == w.writes
  }

  lemma QuietSnoc(spec: Spec, epoch: Time, envs: seq<Env>, env: Env, t: Time)
    requires WellFormed(spec, envs) && WellFormed(spec, envs + [env]) && spec.schedule.Success?
    requires TimerOf(WorldAfter(spec, epoch, envs).status) == Timer(Some(t), Some(Next(spec.schedule.value, t)))
    requires !env.entry.suspend && t <= env.entry.now < Next(spec.schedule.value, t)
    ensures SameButTime(spec, epoch, envs, envs + [env])
  {
    hide Proceed, Enter;
    assert (envs + [env])[..|envs|] == envs;
    var s := WorldAfter(spec, epoch, envs).status;
    Quiescent(spec.schedule.value, s, RUNNING, env.entry, t);
    RunSnoc(RulesOf(spec), epoch, Steps(spec, epoch, envs), Reconcile(spec, s, env));
  }

  /** Quiescence over runs, as for GitCommit. */
  lemma {:induction false} QuiescentUntilNextTick(spec: Spec, epoch: Time, envs: seq<Env>, more: seq<Env>, t: Time)
    requires WellFormed(spec, envs + more) && WellFormed(spec, envs) && spec.schedule.Success?
    requires Chronological(epoch, envs)
    requires envs != [] && Steps(spec, epoch, envs)[|envs| - 1].action == Execute(t, true)
    requires forall e :: e in more ==>
               !e.entry.suspend && t <= e.entry.now < Next(spec.schedule.value, t)
    ensures SameButTime(spec, epoch, envs, envs + more)
    decreases |more|
  {
    hide Reconcile;
    if more == [] {
      assert envs + more == envs;
    } else {
      var some, env := more[..|more| - 1], more[|more| - 1];
      assert envs + more == (envs + some) + [env];
      QuiescentUntilNextTick(spec, epoch, envs, some, t);
      var step := LastStep(spec, epoch, envs);
      QuietSnoc(spec, epoch, envs + some, env, t);
    }
  }

  // This reconcile executes; and if the write of the next time is applied and nothing crashes, the next
  // time it stores is later than now.
  ghost predicate ExecutesAndMovesOn(spec: Spec, s: Status<PrRef>, env: Env)
    requires |env.xs| == |spec.apis| && spec.schedule.Success?
  {
    var step, n := Reconcile(spec, s, env), Next(spec.schedule.value, env.entry.now);
    && step.action.Execute? && step.action.at == env.entry.now
    && (env.next.Applied? && !step.outcome.failed ==> step.status.nextScheduled == Some(n) && n > env.entry.now)
  }

  lemma DueExecutes(spec: Spec, s: Status<PrRef>, env: Env)
    requires |env.xs| == |spec.apis| && spec.schedule.Success?
    requires !env.entry.suspend && Due(TimerOf(s), env.entry.now) && env.entry.start.Applied?
    ensures ExecutesAndMovesOn(spec, s, env)
  {
    hide Proceed, Delivers, Crashes;
    GateShape(spec.schedule, s, RUNNING, env.entry);
    var gate := Enter(spec.schedule, s, RUNNING, env.entry);
    ProceedShape(spec, spec.schedule.value, gate.status, env);
  }

  /** Lateness after waiting, as for GitCommit. */
  lemma WakesAndExecutes(spec: Spec, s: Status<PrRef>, env: Env, wake: Env)
    requires |env.xs| == |wake.xs| == |spec.apis| && spec.schedule.Success?
    requires !env.entry.suspend && !wake.entry.suspend && !Due(TimerOf(s), env.entry.now)
    requires var step := Reconcile(spec, s, env);
             !step.outcome.failed && wake.entry.now == step.end + step.outcome.requeueAfter
    requires wake.entry.start.Applied?
    ensures var n, waited := Next(spec.schedule.value, env.entry.now), Reconcile(spec, s, env).status;
            && waited.nextScheduled == Some(n)
            && n <= wake.entry.now <= Max(n, env.entry.end) + MINUTE
            && ExecutesAndMovesOn(spec, waited, wake)
  {
    hide Proceed, Delivers, Crashes;
    WakesWithinAMinute(spec.schedule.value, s, RUNNING, env.entry, wake.entry);
    DueExecutes(spec, Reconcile(spec, s, env).status, wake);
  }

  /** Lateness after an execution, as for GitCommit. */
  lemma ExecutesAgainInTime(spec: Spec, s: Status<PrRef>, env: Env, wake: Env)
    requires |env.xs| == |wake.xs| == |spec.apis| && spec.schedule.Success?
    requires var step := Reconcile(spec, s, env);
             step.action == Execute(env.entry.now, true) && !step.outcome.failed && wake.entry.now == WakeTime(step)
    requires !wake.entry.suspend && wake.entry.start.Applied?
    ensures var n, step := Next(spec.schedule.value, env.entry.now), Reconcile(spec, s, env);
            && step.status.nextScheduled == Some(n)
            && n <= wake.entry.now <= Max(n, step.end) + MINUTE
            && ExecutesAndMovesOn(spec, step.status, wake)
  {
    hide Proceed, Delivers, Crashes, ExecutesAndMovesOn;
    GateShape(spec.schedule, s, RUNNING, env.entry);
    var gate := Enter(spec.schedule, s, RUNNING, env.entry);
    ProceedShape(spec, spec.schedule.value, gate.status, env);
    DueExecutes(spec, Reconcile(spec, s, env).status, wake);
  }

  /** No stranding: every reconcile leaves a wake-up, unless two executions start at the same instant. */
  lemma NeverStranded(spec: Spec, s: Status<PrRef>, env: Env)
    requires |env.xs| == |spec.apis|
    ensures var step := Reconcile(spec, s, env);
            !Wakes(s, step) ==> step.action.Execute? && s.lastScheduled == Some(env.entry.now)
  {
    hide Proceed, Delivers, Crashes;
    match Enter(spec.schedule, s, RUNNING, env.entry) {
      case Stop(_, _, _, _) =>
      case Go(t, sched) => ProceedShape(spec, sched, t, env);
    }
  }

  /* What the history tells. */

  // Does this reconcile start an execution? Only these three things matter.
  predicate Executes(spec: Spec, s: Status<PrRef>, env: Env) {
    !env.entry.suspend && IsTime(s, env.entry.now) && env.entry.start.Applied?
  }

  const CREATED := Status(NO_PR, Unset, "", None, [], None, None, [])

  // The phases that the executions of a run call for, as for GitCommit.
  ghost function PhasesCalledFor(spec: Spec, epoch: Time, envs: seq<Env>): seq<Phase>
    requires WellFormed(spec, envs)
  {
    if envs == [] then []
    else
      var init, env := envs[..|envs| - 1], envs[|envs| - 1];
      var s := WorldAfter(spec, epoch, init).status;
      PhasesCalledFor(spec, epoch, init) +
      if Executes(spec, s, env) && Records(spec, CREATED, env) then [PhaseFor(spec, CREATED, env)] else []
  }

  function PhasesOf(records: seq<Record<PrRef>>): (r: seq<Phase>)
    ensures |r| == |records|
  {
    seq(|records|, i requires 0 <= i < |records| => records[i].phase)
  }

  // One more reconcile, one more phase or none.
  lemma RecordsWhatIsCalledFor(spec: Spec, s: Status<PrRef>, env: Env)
    requires |env.xs| == |spec.apis| && spec.schedule.Success? && s.restStatuses == []
    ensures PhasesOf(Reconcile(spec, s, env).recorded)
            == if Executes(spec, s, env) && Records(spec, CREATED, env) then [PhaseFor(spec, CREATED, env)] else []
  {
    hide Proceed, PrMustFail, PrMustWait, MustCrash;
    if Executes(spec, s, env) {
      ExecutionEnds(spec, s, env);
    } else {
      StartsIff(spec.schedule, s, RUNNING, env.entry);
    }
  }

  lemma LastRecord(spec: Spec, epoch: Time, envs: seq<Env>)
    requires WellFormed(spec, envs) && Chronological(epoch, envs) && envs != []
    ensures var w := WorldAfter(spec, epoch, envs[..|envs| - 1]);
            && w.status.restStatuses == []
            && WorldAfter(spec, epoch, envs).recorded
               == w.recorded + Reconcile(spec, w.status, envs[|envs| - 1]).recorded
  {
    hide Reconcile, InOrder, Shaped, TimerShaped, Timely;
    var init := envs[..|envs| - 1];
    PullRequestRunsAreRuns(spec, epoch, init);
    RunsAreConsistent(RulesOf(spec), epoch, Steps(spec, epoch, init));
    RunSnoc(RulesOf(spec), epoch, Steps(spec, epoch, init),
            Reconcile(spec, WorldAfter(spec, epoch, init).status, envs[|envs| - 1]));
  }

  lemma {:induction false} RecordedPhases(spec: Spec, epoch: Time, envs: seq<Env>)
    requires WellFormed(spec, envs) && Chronological(epoch, envs) && spec.schedule.Success?
    ensures PhasesOf(WorldAfter(spec, epoch, envs).recorded) == PhasesCalledFor(spec, epoch, envs)
  {
    hide Reconcile, InOrder, Executes, Records, PhaseFor, WorldAfter;
    if envs == [] {
      NothingRecorded(spec, epoch);
    } else {
      RecordedPhases(spec, epoch, envs[..|envs| - 1]);
      LastRecord(spec, epoch, envs);
      RecordsWhatIsCalledFor(spec, WorldAfter(spec, epoch, envs[..|envs| - 1]).status, envs[|envs| - 1]);
    }
  }

  lemma NothingRecorded(spec: Spec, epoch: Time)
    ensures WorldAfter(spec, epoch, []).recorded == []
  {
  }

  /** The history over runs, as for GitCommit. */
  lemma HistoryTells(spec: Spec, epoch: Time, envs: seq<Env>)
    requires WellFormed(spec, envs) && Chronological(epoch, envs) && spec.schedule.Success?
    ensures var history, phases := WorldAfter(spec, epoch, envs).status.history, PhasesCalledFor(spec, epoch, envs);
            var limit := if spec.maxHistory.Some? then spec.maxHistory.value else 10;
            && |history| == (if |phases| < limit then |phases| else limit)
            && forall i :: 0 <= i < |history| ==> history[i].phase == phases[|phases| - 1 - i]
  {
    hide Reconcile, Steps, After, Chronological, PhasesCalledFor, AllTruthful;
    PullRequestRunsAreRuns(spec, epoch, envs);
    StatusIsTruthful(RulesOf(spec), epoch, Steps(spec, epoch, envs));
    RecordedPhases(spec, epoch, envs);
    var w, phases := WorldAfter(spec, epoch, envs), PhasesCalledFor(spec, epoch, envs);
    forall i | 0 <= i < |w.status.history| ensures w.status.history[i].phase == phases[|phases| - 1 - i] {
      assert PhasesOf(w.recorded)[|w.recorded| - 1 - i] == w.recorded[|w.recorded| - 1 - i].phase;
    }
  }

  /* REST conditions. */

  lemma CreationFollowsCheck(spec: Spec, s: Status<PrRef>, env: Env)
    requires |env.xs| == |spec.apis| && spec.apis != [] && Creates(spec, s, env)
    ensures CheckAll(spec.apis, s.restStatuses, env.xs, None).1.Met?
  {
  }

  // A pull request comes from a reconcile that gets to the creation.
  lemma ProducedCreates(spec: Spec, s: Status<PrRef>, env: Env)
    requires |env.xs| == |spec.apis| && Reconcile(spec, s, env).produced != []
    ensures Creates(spec, s, env)
  {
    hide CheckAll, Creation, BuiltFrom;
    GateShape(spec.schedule, s, RUNNING, env.entry);
  }

  /** Freshness over runs. Whenever a reconcile of a run gets to the creation of a pull request with REST
      APIs configured, every API was called in it and met its condition, and the outputs its files draw on
      are exactly those the calls produced. */
  lemma CreatedFromFreshOutputs(spec: Spec, epoch: Time, init: seq<Env>, env: Env)
    requires WellFormed(spec, init) && Chronological(epoch, init) && |env.xs| == |spec.apis| && spec.apis != []
    requires var s := WorldAfter(spec, epoch, init).status;
             Creates(spec, s, env) || Reconcile(spec, s, env).produced != []
    ensures var s := WorldAfter(spec, epoch, init).status;
            && Outputs(Entries(spec, s, env)) == Produced(spec.apis, env.xs)
            && AllMet(spec.apis, s.restStatuses, env.xs, None)
  {
    hide Reconcile, CheckAll, Produced, Outputs, AllMet, Creates;
    var s := WorldAfter(spec, epoch, init).status;
    if Reconcile(spec, s, env).produced != [] {
      ProducedCreates(spec, s, env);
    }
    PullRequestRunsAreRuns(spec, epoch, init);
    RunsAreConsistent(RulesOf(spec), epoch, Steps(spec, epoch, init));
    CreationFollowsCheck(spec, s, env);
    AllApisOutputsAreFresh(spec.apis, s.restStatuses, env.xs, None);
    MetIsAllMet(spec.apis, s.restStatuses, env.xs, None);
  }

  /** The file itself, as for GitCommit: in every head branch that a run pushes. */
  lemma PushedFilesAreFresh(spec: Spec, epoch: Time, init: seq<Env>, env: Env, cloned: Tree, i: nat)
    requires WellFormed(spec, init) && Chronological(epoch, init) && |env.xs| == |spec.apis| && spec.apis != []
    requires Creates(spec, WorldAfter(spec, epoch, init).status, env)
    requires i < |spec.job.files| && IsAllApisFile(spec.job.files[i])
    requires !WrittenLater(spec.job.crypto, spec.job.files, PrAllPuts(spec.job.refs, env.forge.inputs), i)
    ensures var s := WorldAfter(spec, epoch, init).status;
            FileIs(spec.job.crypto, spec.job.files, env.forge.draws,
                   HeadTree(spec.job, Entries(spec, s, env), cloned, env.forge), i,
                   Join(Produced(spec.apis, env.xs), Delimiter(spec.job.files[i].source)))
  {
    hide Reconcile, CheckAll, Produced, PrFold, PrAllPuts, FileIs, WrittenLater, IsAllApisFile, Creates;
    var s := WorldAfter(spec, epoch, init).status;
    PullRequestRunsAreRuns(spec, epoch, init);
    RunsAreConsistent(RulesOf(spec), epoch, Steps(spec, epoch, init));
    CreationFollowsCheck(spec, s, env);
    CommittedFileIsFresh(spec.job.crypto, cloned, spec.job.files, env.forge.draws,
                         PrAllPuts(spec.job.refs, env.forge.inputs), spec.apis, s.restStatuses, env.xs, None, i);
  }
}
