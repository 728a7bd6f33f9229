/** Whole runs of a scheduled GitCommit: they are scheduled runs, so tick accounting, the history and
    truth carry over; and what is special to GitCommit, its REST conditions. */
module GitCommitRuns {
  import opened Wrappers
  import opened Api
  import opened Ticks
  import opened RestApis
  import opened Worktree
  import opened ResourceRefs
  import opened GitRemote
  import opened FreshFiles
  import opened ScheduleGate
  import opened ScheduledRuns
  import opened ScheduledGitCommit

  function StatusAfter(spec: Spec, epoch: Time, envs: seq<Env>): Status<string>
    requires WellFormed(spec, envs)
  {
    After(RulesOf(spec), epoch, Steps(spec, epoch, envs)).status
  }

  ghost predicate WellFormed(spec: Spec, envs: seq<Env>) {
    forall e :: e in envs ==> |e.xs| == |spec.apis|
  }

  // The reconciles of a GitCommit one after the other, each on what the one before it stored.
  function Steps(spec: Spec, epoch: Time, envs: seq<Env>): (r: seq<Step<string>>)
    requires WellFormed(spec, envs)
    ensures |r| == |envs|
  {
    if envs == [] then []
    else
      var init := Steps(spec, epoch, envs[..|envs| - 1]);
      init + [Reconcile(spec, After(RulesOf(spec), epoch, init).status, envs[|envs| - 1])]
  }

  // No reconcile starts before the one before it ended.
  predicate Chronological(epoch: Time, envs: seq<Env>) {
    envs == [] ||
    var n := |envs| - 1;
    Chronological(epoch, envs[..n]) && InOrder(if n == 0 then epoch else envs[n - 1].end, envs[n])
  }

  // The last reconcile of a sequence, as a step.
  lemma LastStep(spec: Spec, epoch: Time, envs: seq<Env>, clock: Time) returns (step: Step<string>)
    requires WellFormed(spec, envs) && envs != [] && InOrder(clock, envs[|envs| - 1])
    ensures step == Reconcile(spec, StatusAfter(spec, epoch, envs[..|envs| - 1]), envs[|envs| - 1])
    ensures Steps(spec, epoch, envs) == Steps(spec, epoch, envs[..|envs| - 1]) + [step]
    ensures var s := StatusAfter(spec, epoch, envs[..|envs| - 1]);
            Shaped(RulesOf(spec), s, step) && TimerShaped(RulesOf(spec), s, step) && Timely(clock, step)
    ensures step.end <= envs[|envs| - 1].end
    ensures step.action.Execute? ==> (step.action.rescheduled <==> StoresNext(step, envs[|envs| - 1]).Applied?)
  {
    var s := StatusAfter(spec, epoch, envs[..|envs| - 1]);
    step := Reconcile(spec, s, envs[|envs| - 1]);
    ReconcileIsShaped(spec, s, envs[|envs| - 1], clock);
  }

  /** Any chronological sequence of reconciles is a scheduled run. */
  lemma {:induction false} GitCommitRunsAreRuns(spec: Spec, epoch: Time, envs: seq<Env>)
    requires WellFormed(spec, envs) && Chronological(epoch, envs)
    ensures IsRun(RulesOf(spec), epoch, Steps(spec, epoch, envs))
    ensures var w := After(RulesOf(spec), epoch, Steps(spec, epoch, envs));
            w.clock <= if envs == [] then epoch else envs[|envs| - 1].end
  {
    if envs != [] {
      var init := envs[..|envs| - 1];
      GitCommitRunsAreRuns(spec, epoch, init);
      var w := After(RulesOf(spec), epoch, Steps(spec, epoch, init));
      assert InOrder(w.clock, envs[|envs| - 1]);
      var step := LastStep(spec, epoch, envs, w.clock);
      RunSnoc(RulesOf(spec), epoch, Steps(spec, epoch, init), step);
    }
  }

  lemma QuietStep(spec: Spec, s: Status<string>, env: Env, t: Time)
    requires |env.xs| == |spec.apis| && spec.schedule.Success? && !env.entry.suspend
    requires TimerOf(s).last.Some? && s.nextScheduled == Some(Next(spec.schedule.value, t))
    requires t <= env.entry.now < Next(spec.schedule.value, t)
    ensures var step := Reconcile(spec, s, env);
            step.status == s && step.produced == [] && step.recorded == [] && !step.writes
  {
    Quiescent(spec.schedule.value, s, RUNNING, env.entry, t);
  }

  // What an execution at t that stored its next time leaves in the timer.
  lemma RescheduledTimer(spec: Spec, epoch: Time, envs: seq<Env>, t: Time)
    requires WellFormed(spec, envs) && Chronological(epoch, envs) && spec.schedule.Success?
    requires envs != [] && Steps(spec, epoch, envs)[|envs| - 1].action == Execute(t, true)
    ensures TimerOf(StatusAfter(spec, epoch, envs)) == Timer(Some(t), Some(Next(spec.schedule.value, t)))
  {
    GitCommitRunsAreRuns(spec, epoch, envs);
    var steps := Steps(spec, epoch, envs);
    assert TimerShaped(RulesOf(spec), After(RulesOf(spec), epoch, steps[..|steps| - 1]).status, steps[|steps| - 1]);
  }

  lemma QuietSnoc(spec: Spec, epoch: Time, envs: seq<Env>, env: Env, t: Time)
    requires WellFormed(spec, envs) && WellFormed(spec, envs + [env]) && spec.schedule.Success?
    requires TimerOf(StatusAfter(spec, epoch, envs)) == Timer(Some(t), Some(Next(spec.schedule.value, t)))
    requires !env.entry.suspend && t <= env.entry.now < Next(spec.schedule.value, t)
    ensures SameButTime(spec, epoch, envs, envs + [env])
  {
    hide ScheduledGitCommit.Reconcile;
    assert (envs + [env])[..|envs|] == envs;
    var s := StatusAfter(spec, epoch, envs);
    QuietStep(spec, s, env, t);
    RunSnoc(RulesOf(spec), epoch, Steps(spec, epoch, envs), Reconcile(spec, s, env));
  }

  // Two runs that leave the same status, the same commits and the same records, and in which as many
  // reconciles asked for a status update.
  predicate SameButTime(spec: Spec, epoch: Time, a: seq<Env>, b: seq<Env>)
    requires WellFormed(spec, a) && WellFormed(spec, b)
  {
    var w, v := After(RulesOf(spec), epoch, Steps(spec, epoch, a)), After(RulesOf(spec), epoch, Steps(spec, epoch, b));
    v.status == w.status && v.produced == w.produced && v.recorded == w.recorded && v.writes == w.writes
  }

  /** Quiescence over runs. After an execution at t that stored its next time, every reconcile before
      that time, however many there are, leaves the status a fixed point, pushes nothing and asks for no
      status update. */
  lemma {:induction false} QuiescentUntilNextTick(spec: Spec, epoch: Time, envs: seq<Env>, more: seq<Env>, t: Time)
    requires WellFormed(spec, envs + more) && WellFormed(spec, envs) && spec.schedule.Success?
    requires Chronological(epoch, envs)
    requires envs != [] && Steps(spec, epoch, envs)[|envs| - 1].action == Execute(t, true)
    requires forall e :: e in more ==>
               !e.entry.suspend && t <= e.entry.now < Next(spec.schedule.value, t)
    ensures SameButTime(spec, epoch, envs, envs + more)
    decreases |more|
  {
    hide ScheduledGitCommit.Reconcile;
    if more == [] {
      assert envs + more == envs;
    } else {
      var some, env := more[..|more| - 1], more[|more| - 1];
      assert envs + more == (envs + some) + [env];
      QuiescentUntilNextTick(spec, epoch, envs, some, t);
      RescheduledTimer(spec, epoch, envs, t);
      QuietSnoc(spec, epoch, envs + some, env, t);
    }
  }

  /** Lateness. Woken exactly when it asked to be, a GitCommit that waited is at most a minute past its
      stored next tick (or past the end of the reconcile that waited, if that took longer), and it
      executes there and then; the next time it stores is later than that. */
  lemma WakesAndExecutes(spec: Spec, s: Status<string>, env: Env, wake: Env)
    requires |env.xs| == |wake.xs| == |spec.apis| && spec.schedule.Success?
    requires !env.entry.suspend && !wake.entry.suspend && !Due(TimerOf(s), env.entry.now)
    requires var step := Reconcile(spec, s, env);
             !step.outcome.failed && wake.entry.now == step.end + step.outcome.requeueAfter
    requires wake.entry.start.Applied?
    ensures var n, waited := Next(spec.schedule.value, env.entry.now), Reconcile(spec, s, env).status;
            && waited.nextScheduled == Some(n)
            && n <= wake.entry.now <= Max(n, env.entry.end) + MINUTE
            && ExecutesAndMovesOn(spec, waited, wake)
  {
    hide Proceed;
    WakesWithinAMinute(spec.schedule.value, s, RUNNING, env.entry, wake.entry);
    DueExecutes(spec, Reconcile(spec, s, env).status, wake);
  }

  // This reconcile executes; and if its writes are applied the next time it stores is later than now.
  ghost predicate ExecutesAndMovesOn(spec: Spec, s: Status<string>, env: Env)
    requires |env.xs| == |spec.apis| && spec.schedule.Success?
  {
    var step, n := Reconcile(spec, s, env), Next(spec.schedule.value, env.entry.now);
    && step.action.Execute? && step.action.at == env.entry.now
    && (env.next.Applied? && env.record.Applied? ==> step.status.nextScheduled == Some(n) && n > env.entry.now)
  }

  lemma DueExecutes(spec: Spec, s: Status<string>, env: Env)
    requires |env.xs| == |spec.apis| && spec.schedule.Success?
    requires !env.entry.suspend && Due(TimerOf(s), env.entry.now) && env.entry.start.Applied?
    ensures ExecutesAndMovesOn(spec, s, env)
  {
    hide Proceed;
    GateShape(spec.schedule, s, RUNNING, env.entry);
    var gate := Enter(spec.schedule, s, RUNNING, env.entry);
    ProceedShape(spec, spec.schedule.value, gate.status, env);
  }

  /** The same after an execution whose next time was stored and which ended without an error. The delay
      may lack the clamp, or be none at all if the next tick has come meanwhile; the changed status then
      has the queue look again at once. */
  lemma ExecutesAgainInTime(spec: Spec, s: Status<string>, env: Env, wake: Env)
    requires |env.xs| == |wake.xs| == |spec.apis| && spec.schedule.Success?
    requires var step := Reconcile(spec, s, env);
             step.action == Execute(env.entry.now, true) && !step.outcome.failed && wake.entry.now == WakeTime(step)
    requires !wake.entry.suspend && wake.entry.start.Applied?
    ensures var n, step := Next(spec.schedule.value, env.entry.now), Reconcile(spec, s, env);
            && step.status.nextScheduled == Some(n)
            && n <= wake.entry.now <= Max(n, step.end) + MINUTE
            && ExecutesAndMovesOn(spec, step.status, wake)
  {
    hide Proceed, ExecutesAndMovesOn;
    GateShape(spec.schedule, s, RUNNING, env.entry);
    var gate := Enter(spec.schedule, s, RUNNING, env.entry);
    ProceedShape(spec, spec.schedule.value, gate.status, env);
    DueExecutes(spec, Reconcile(spec, s, env).status, wake);
  }

  /** No stranding: every reconcile leaves a wake-up, unless two executions start at the same instant. */
  lemma NeverStranded(spec: Spec, s: Status<string>, env: Env)
    requires |env.xs| == |spec.apis|
    ensures var step := Reconcile(spec, s, env);
            !Wakes(s, step) ==> step.action.Execute? && s.lastScheduled == Some(env.entry.now)
  {
    hide Proceed;
    match Enter(spec.schedule, s, RUNNING, env.entry) {
      case Stop(_, _, _, _) =>
      case Go(t, sched) => ProceedShape(spec, sched, t, env);
    }
  }

  /* Lost writes. */

  // Executions that lost the write which stores the next time, be it failed or interrupted.
  function LostNext(spec: Spec, epoch: Time, envs: seq<Env>): nat
    requires WellFormed(spec, envs)
  {
    if envs == [] then 0
    else
      var init, env := envs[..|envs| - 1], envs[|envs| - 1];
      var step := Reconcile(spec, StatusAfter(spec, epoch, init), env);
      LostNext(spec, epoch, init) + if step.action.Execute? && StoresNext(step, env).Lost? then 1 else 0
  }

  lemma UnrescheduledSnoc(log: seq<Action>, a: Action)
    ensures Unrescheduled(log + [a]) == Unrescheduled(log) + if a.Execute? && !a.rescheduled then 1 else 0
  {
    assert (log + [a])[..|log|] == log;
  }

  /** The executions that did not move the next time are exactly those that lost the write of it. */
  lemma {:induction false} UnrescheduledAreLost(spec: Spec, epoch: Time, envs: seq<Env>)
    requires WellFormed(spec, envs) && Chronological(epoch, envs)
    ensures Unrescheduled(After(RulesOf(spec), epoch, Steps(spec, epoch, envs)).actions) == LostNext(spec, epoch, envs)
  {
    hide Reconcile, InOrder, Shaped, TimerShaped, Timely;
    if envs != [] {
      var init := envs[..|envs| - 1];
      UnrescheduledAreLost(spec, epoch, init);
      GitCommitRunsAreRuns(spec, epoch, init);
      var w := After(RulesOf(spec), epoch, Steps(spec, epoch, init));
      var step := LastStep(spec, epoch, envs, if init == [] then epoch else init[|init| - 1].end);
      RunSnoc(RulesOf(spec), epoch, Steps(spec, epoch, init), step);
      UnrescheduledSnoc(w.actions, step.action);
    }
  }

  lemma {:induction false} NothingLost(spec: Spec, epoch: Time, envs: seq<Env>)
    requires WellFormed(spec, envs) && forall e :: e in envs ==> e.next.Applied? && e.record.Applied?
    ensures LostNext(spec, epoch, envs) == 0
  {
    hide Reconcile;
    if envs != [] {
      NothingLost(spec, epoch, envs[..|envs| - 1]);
    }
  }

  /** Tick accounting. A run pushes at most as many commits as it has executions, and has at most one of
      these, plus one for each tick since the first, plus one for each that lost the write of its next
      time; so when nothing is lost, the ticks alone bound it. */
  lemma CommitsAreAccountedFor(spec: Spec, epoch: Time, envs: seq<Env>)
    requires WellFormed(spec, envs) && Chronological(epoch, envs) && spec.schedule.Success?
    requires First(After(RulesOf(spec), epoch, Steps(spec, epoch, envs)).actions).Some?
    ensures var w := After(RulesOf(spec), epoch, Steps(spec, epoch, envs));
            var ticks := Count(spec.schedule.value, First(w.actions).value, w.actions[|w.actions| - 1].at);
            && |w.produced| <= Executions(w.actions) <= 1 + ticks + LostNext(spec, epoch, envs)
            && ((forall e :: e in envs ==> e.next.Applied? && e.record.Applied?) ==> Executions(w.actions) <= 1 + ticks)
  {
    hide Reconcile, Count, Executions, Unrescheduled, First, Steps, After, Chronological, LostNext;
    GitCommitRunsAreRuns(spec, epoch, envs);
    RunIsLegal(RulesOf(spec), epoch, Steps(spec, epoch, envs));
    TickAccounting(spec.schedule.value, After(RulesOf(spec), epoch, Steps(spec, epoch, envs)).actions);
    UnrescheduledAreLost(spec, epoch, envs);
    if forall e :: e in envs ==> e.next.Applied? && e.record.Applied? {
      NothingLost(spec, epoch, envs);
    }
  }

  /* What the history tells. */

  // Does this reconcile start an execution? Only these three things matter.
  predicate Executes(spec: Spec, s: Status<string>, env: Env) {
    !env.entry.suspend && IsTime(s, env.entry.now) && env.entry.start.Applied?
  }

  const CREATED := Status("", Unset, "", None, [], None, None, [])

  // The phases that the executions of a run call for, those whose record was stored, oldest first. What they
  // call for follows from what came back alone, for in a run no entries are held from before.
  ghost function PhasesCalledFor(spec: Spec, epoch: Time, envs: seq<Env>): seq<Phase>
    requires WellFormed(spec, envs)
  {
    if envs == [] then []
    else
      var init, env := envs[..|envs| - 1], envs[|envs| - 1];
      var s := StatusAfter(spec, epoch, init);
      PhasesCalledFor(spec, epoch, init) +
      if Executes(spec, s, env) && Records(spec, CREATED, env) then [PhaseFor(spec, CREATED, env)] else []
  }

  function PhasesOf(records: seq<Record<string>>): (r: seq<Phase>)
    ensures |r| == |records|
  {
    seq(|records|, i requires 0 <= i < |records| => records[i].phase)
  }

  // One more reconcile, one more phase or none.
  lemma RecordsWhatIsCalledFor(spec: Spec, s: Status<string>, env: Env)
    requires |env.xs| == |spec.apis| && spec.schedule.Success? && s.restStatuses == []
    ensures PhasesOf(Reconcile(spec, s, env).recorded)
            == if Executes(spec, s, env) && Records(spec, CREATED, env) then [PhaseFor(spec, CREATED, env)] else []
  {
    hide Proceed, MustFail, MustWait;
    if Executes(spec, s, env) {
      ExecutionEnds(spec, s, env);
    } else {
      StartsIff(spec.schedule, s, RUNNING, env.entry);
    }
  }

  lemma LastRecord(spec: Spec, epoch: Time, envs: seq<Env>)
    requires WellFormed(spec, envs) && Chronological(epoch, envs) && envs != []
    ensures var init := envs[..|envs| - 1];
            var s := StatusAfter(spec, epoch, init);
            && s.restStatuses == []
            && After(RulesOf(spec), epoch, Steps(spec, epoch, envs)).recorded
               == After(RulesOf(spec), epoch, Steps(spec, epoch, init)).recorded
                  + Reconcile(spec, s, envs[|envs| - 1]).recorded
  {
    hide Reconcile, InOrder, Shaped, TimerShaped, Timely;
    var init := envs[..|envs| - 1];
    GitCommitRunsAreRuns(spec, epoch, init);
    RunsAreConsistent(RulesOf(spec), epoch, Steps(spec, epoch, init));
    RunSnoc(RulesOf(spec), epoch, Steps(spec, epoch, init),
            Reconcile(spec, StatusAfter(spec, epoch, init), envs[|envs| - 1]));
  }

  lemma {:induction false} RecordedPhases(spec: Spec, epoch: Time, envs: seq<Env>)
    requires WellFormed(spec, envs) && Chronological(epoch, envs) && spec.schedule.Success?
    ensures PhasesOf(After(RulesOf(spec), epoch, Steps(spec, epoch, envs)).recorded)
            == PhasesCalledFor(spec, epoch, envs)
  {
    hide Reconcile, InOrder, Executes, Records, PhaseFor, After, StatusAfter;
    if envs == [] {
      NothingRecorded(spec, epoch);
    } else {
      RecordedPhases(spec, epoch, envs[..|envs| - 1]);
      LastRecord(spec, epoch, envs);
      RecordsWhatIsCalledFor(spec, StatusAfter(spec, epoch, envs[..|envs| - 1]), envs[|envs| - 1]);
    }
  }

  lemma NothingRecorded(spec: Spec, epoch: Time)
    ensures After(RulesOf(spec), epoch, Steps(spec, epoch, [])).recorded == []
  {
  }

  /** The history over runs: as many entries as the spec allows, ten by default, newest first, and each has the
      phase that its execution called for by what came back, whatever happened since. */
  lemma HistoryTells(spec: Spec, epoch: Time, envs: seq<Env>)
    requires WellFormed(spec, envs) && Chronological(epoch, envs) && spec.schedule.Success?
    ensures var history, phases := StatusAfter(spec, epoch, envs).history, PhasesCalledFor(spec, epoch, envs);
            var limit := if spec.maxHistory.Some? then spec.maxHistory.value else 10;
            && |history| == (if |phases| < limit then |phases| else limit)
            && forall i :: 0 <= i < |history| ==> history[i].phase == phases[|phases| - 1 - i]
  {
    hide Reconcile, Steps, After, Chronological, PhasesCalledFor, AllTruthful;
    GitCommitRunsAreRuns(spec, epoch, envs);
    StatusIsTruthful(RulesOf(spec), epoch, Steps(spec, epoch, envs));
    RecordedPhases(spec, epoch, envs);
    var w, phases := After(RulesOf(spec), epoch, Steps(spec, epoch, envs)), PhasesCalledFor(spec, epoch, envs);
    forall i | 0 <= i < |w.status.history| ensures w.status.history[i].phase == phases[|phases| - 1 - i] {
      assert PhasesOf(w.recorded)[|w.recorded| - 1 - i] == w.recorded[|w.recorded| - 1 - i].phase;
    }
  }

  /* REST conditions. */

  // A push with REST APIs configured comes from a check all of whose conditions are met.
  lemma PushFollowsCheck(spec: Spec, s: Status<string>, env: Env)
    requires |env.xs| == |spec.apis| && spec.apis != []
    requires Reconcile(spec, s, env).produced != []
    ensures CheckAll(spec.apis, s.restStatuses, env.xs, Some(CALL_LIMIT)).1.Met?
  {
    GateShape(spec.schedule, s, RUNNING, env.entry);
  }

  /** Freshness over runs. Whenever a commit is pushed with REST APIs configured, every API was called
      in that reconcile and met its condition, and the outputs its files draw on are exactly those
      the calls produced. */
  lemma PushedOutputsAreFresh(spec: Spec, epoch: Time, envs: seq<Env>)
    requires WellFormed(spec, envs) && Chronological(epoch, envs) && envs != [] && spec.apis != []
    requires Steps(spec, epoch, envs)[|envs| - 1].produced != []
    ensures var s, env := StatusAfter(spec, epoch, envs[..|envs| - 1]), envs[|envs| - 1];
            && Outputs(Entries(spec, s, env)) == Produced(spec.apis, env.xs)
            && AllMet(spec.apis, s.restStatuses, env.xs, Some(CALL_LIMIT))
  {
    hide Reconcile, CheckAll, Produced, Outputs, AllMet;
    var init, env := envs[..|envs| - 1], envs[|envs| - 1];
    var s := StatusAfter(spec, epoch, init);
    GitCommitRunsAreRuns(spec, epoch, init);
    RunsAreConsistent(RulesOf(spec), epoch, Steps(spec, epoch, init));
    PushFollowsCheck(spec, s, env);
    AllApisOutputsAreFresh(spec.apis, s.restStatuses, env.xs, Some(CALL_LIMIT));
    MetIsAllMet(spec.apis, s.restStatuses, env.xs, Some(CALL_LIMIT));
  }

  /** The file itself: in the tree of every commit of a run, an overwriting all-APIs file that nothing
      later in the commit writes to holds exactly the outputs of this reconcile's calls, in spec order and
      joined by the delimiter, sealed if encryption asks for it. */
  lemma CommittedFilesAreFresh(spec: Spec, epoch: Time, envs: seq<Env>, cloned: Tree, i: nat)
    requires WellFormed(spec, envs) && Chronological(epoch, envs) && envs != [] && spec.apis != []
    requires Steps(spec, epoch, envs)[|envs| - 1].produced != []
    requires i < |spec.job.files| && IsAllApisFile(spec.job.files[i])
    requires var refs := GcAllPuts(spec.job.refs, envs[|envs| - 1].git.inputs);
             !WrittenLater(spec.job.crypto, spec.job.files, refs, i)
    ensures var s, env := StatusAfter(spec, epoch, envs[..|envs| - 1]), envs[|envs| - 1];
            FileIs(spec.job.crypto, spec.job.files, env.git.draws,
                   CommittedTree(spec.job, Entries(spec, s, env), cloned, env.git), i,
                   Join(Produced(spec.apis, env.xs), Delimiter(spec.job.files[i].source)))
  {
    hide Reconcile, CheckAll, Produced, GcFold, GcAllPuts, FileIs, WrittenLater, IsAllApisFile;
    var init, env := envs[..|envs| - 1], envs[|envs| - 1];
    var s := StatusAfter(spec, epoch, init);
    GitCommitRunsAreRuns(spec, epoch, init);
    RunsAreConsistent(RulesOf(spec), epoch, Steps(spec, epoch, init));
    PushFollowsCheck(spec, s, env);
    CommittedFileIsFresh(spec.job.crypto, cloned, spec.job.files, env.git.draws,
                         GcAllPuts(spec.job.refs, env.git.inputs), spec.apis, s.restStatuses, env.xs,
                         Some(CALL_LIMIT), i);
  }

  /* Branches. */

  // The branches of the remote after a run that found them like this.
  function BranchesOver(spec: Spec, epoch: Time, envs: seq<Env>, default: string, branches: map<string, Tree>)
    : (r: map<string, Tree>)
    requires WellFormed(spec, envs) && default in branches
    ensures default in r
  {
    if envs == [] then branches
    else
      var init, env := envs[..|envs| - 1], envs[|envs| - 1];
      var s := StatusAfter(spec, epoch, init);
      BranchesWith(spec.job, Entries(spec, s, env), env.git, Reconcile(spec, s, env).produced, default,
                   BranchesOver(spec, epoch, init, default, branches))
  }

  // That is what the reconciles do to them, one after the other.
  lemma BranchesMove(spec: Spec, epoch: Time, envs: seq<Env>, default: string, branches: map<string, Tree>,
                     commits: seq<Commit>)
    requires WellFormed(spec, envs) && envs != [] && default in branches
    ensures var init, env := envs[..|envs| - 1], envs[|envs| - 1];
            var s := StatusAfter(spec, epoch, init);
            var shas, entries := Reconcile(spec, s, env).produced, Entries(spec, s, env);
            Delivered(spec.job, entries, env.git, shas, default, BranchesOver(spec, epoch, init, default, branches),
                      BranchesOver(spec, epoch, envs, default, branches), commits,
                      commits + if shas == [] then [] else [Commit(shas[0], entries)])
  {
    hide Reconcile, BranchesWith, Delivered, BuiltFrom;
    var init, env := envs[..|envs| - 1], envs[|envs| - 1];
    var s := StatusAfter(spec, epoch, init);
    DeliveredIs(spec.job, Entries(spec, s, env), env.git, Reconcile(spec, s, env).produced, default,
                BranchesOver(spec, epoch, init, default, branches), commits);
  }

  /** A run that commits to a branch of its own never touches another, the default one included, and each of
      its commits is written over the default tree that the run found; otherwise it moves the default branch
      and no other, each commit from where the one before left it. */
  lemma {:induction false} OnlyOwnBranchMoves(spec: Spec, epoch: Time, envs: seq<Env>, default: string,
                                              branches: map<string, Tree>)
    requires WellFormed(spec, envs) && default in branches
    ensures var after := BranchesOver(spec, epoch, envs, default, branches);
            var own := if spec.job.branch in {"", "main", "master"} then default else spec.job.branch;
            && (forall b :: b != own ==> (b in after <==> b in branches) && (b in branches ==> after[b] == branches[b]))
            && (envs != [] ==>
                 var init, env := envs[..|envs| - 1], envs[|envs| - 1];
                 var s, before := StatusAfter(spec, epoch, init), BranchesOver(spec, epoch, init, default, branches);
                 if Reconcile(spec, s, env).produced == [] then after == before
                 else
                   var base := if own == default then before[default] else branches[default];
                   own in after && after[own] == CommittedTree(spec.job, Entries(spec, s, env), base, env.git))
  {
    hide Reconcile, CommittedTree, BuiltFrom, BranchesWith;
    if envs != [] {
      var init, env := envs[..|envs| - 1], envs[|envs| - 1];
      var s := StatusAfter(spec, epoch, init);
      OnlyOwnBranchMoves(spec, epoch, init, default, branches);
      DeliveredIs(spec.job, Entries(spec, s, env), env.git, Reconcile(spec, s, env).produced, default,
                  BranchesOver(spec, epoch, init, default, branches), []);
    }
  }

  /* The breaker. */

  // Does this reconcile send a request to API i?
  predicate Calls(spec: Spec, s: Status<string>, env: Env, i: nat)
    requires |env.xs| == |spec.apis| && i < |spec.apis|
  {
    && Enter(spec.schedule, s, RUNNING, env.entry).Go?
    && FirstTripped(s.restStatuses).None?
    && WasCalled(spec.apis, Aligned(spec.apis, s.restStatuses), env.xs, i, Some(CALL_LIMIT))
  }

  function CallsOver(spec: Spec, epoch: Time, envs: seq<Env>, i: nat): nat
    requires WellFormed(spec, envs) && i < |spec.apis|
  {
    if envs == [] then 0
    else
      var init, env := envs[..|envs| - 1], envs[|envs| - 1];
      CallsOver(spec, epoch, init, i) + if Calls(spec, StatusAfter(spec, epoch, init), env, i) then 1 else 0
  }

  // An execution in which nothing takes time, every write is applied and no API answers.
  function ApiDown(spec: Spec, now: Time): Env {
    Env(Entry(false, now, Applied(now), Applied(now), now), seq(|spec.apis|, _ => Exchange(NoAnswer(""), now)),
        None, NOT_CLONED, Applied(now), Applied(now), now)
  }

  lemma ApiDownStep(spec: Spec, s: Status<string>, now: Time)
    requires spec.schedule.Success? && spec.apis != [] && s.restStatuses == [] && Due(TimerOf(s), now)
    ensures var env := ApiDown(spec, now);
            && Calls(spec, s, env, 0) && InOrder(now, env)
            && TimerOf(Reconcile(spec, s, env).status) == Timer(Some(now), Some(Next(spec.schedule.value, now)))
  {
    var env := ApiDown(spec, now);
    GateShape(spec.schedule, s, RUNNING, env.entry);
    EntryAfter(spec.apis, Aligned(spec.apis, []), env.xs, |spec.apis|, 0, Some(CALL_LIMIT));
  }

  // One more reconcile with no API answering, at a moment when the resource is due.
  lemma OneMoreCall(spec: Spec, epoch: Time, init: seq<Env>, now: Time)
    requires WellFormed(spec, init) && Chronological(epoch, init) && spec.schedule.Success? && spec.apis != []
    requires Due(TimerOf(StatusAfter(spec, epoch, init)), now)
    ensures WellFormed(spec, init + [ApiDown(spec, now)])
    ensures CallsOver(spec, epoch, init + [ApiDown(spec, now)], 0) == CallsOver(spec, epoch, init, 0) + 1
    ensures TimerOf(StatusAfter(spec, epoch, init + [ApiDown(spec, now)]))
            == Timer(Some(now), Some(Next(spec.schedule.value, now)))
  {
    hide ScheduledGitCommit.Reconcile, CheckAll;
    var s, env := StatusAfter(spec, epoch, init), ApiDown(spec, now);
    GitCommitRunsAreRuns(spec, epoch, init);
    RunsAreConsistent(RulesOf(spec), epoch, Steps(spec, epoch, init));
    ApiDownStep(spec, s, now);
    assert (init + [env])[..|init|] == init;
    RunSnoc(RulesOf(spec), epoch, Steps(spec, epoch, init), Reconcile(spec, s, env));
  }

  function TickAfter(s: Schedule, epoch: Time, n: nat): Time {
    if n == 0 then epoch else Next(s, TickAfter(s, epoch, n - 1))
  }

  // n executions, one per tick, none of which loses a write.
  function DownRun(spec: Spec, epoch: Time, n: nat): (envs: seq<Env>)
    requires spec.schedule.Success?
    ensures |envs| == n && WellFormed(spec, envs)
    ensures n > 0 ==> envs[n - 1] == ApiDown(spec, TickAfter(spec.schedule.value, epoch, n))
    ensures forall e :: e in envs ==> e.entry.start.Applied? && e.next.Applied? && e.record.Applied?
  {
    if n == 0 then []
    else DownRun(spec, epoch, n - 1) + [ApiDown(spec, TickAfter(spec.schedule.value, epoch, n))]
  }

  lemma ApiDownInOrder(spec: Spec, clock: Time, now: Time)
    ensures ApiDown(spec, now).end == now && (clock <= now ==> InOrder(clock, ApiDown(spec, now)))
  {
  }

  lemma NoneIsChronological(epoch: Time)
    ensures Chronological(epoch, [])
  {
  }

  lemma ChronologicalSnoc(epoch: Time, envs: seq<Env>, env: Env)
    requires Chronological(epoch, envs) && InOrder(if envs == [] then epoch else envs[|envs| - 1].end, env)
    ensures Chronological(epoch, envs + [env])
  {
    hide InOrder;
    assert (envs + [env])[..|envs|] == envs;
  }

  lemma {:induction false} DownRunIsChronological(spec: Spec, epoch: Time, n: nat)
    requires spec.schedule.Success?
    ensures Chronological(epoch, DownRun(spec, epoch, n))
  {
    hide InOrder, ApiDown, Chronological;
    if n == 0 {
      NoneIsChronological(epoch);
    } else {
      var before, now := TickAfter(spec.schedule.value, epoch, n - 1), TickAfter(spec.schedule.value, epoch, n);
      DownRunIsChronological(spec, epoch, n - 1);
      ApiDownInOrder(spec, epoch, before);
      ApiDownInOrder(spec, before, now);
      ChronologicalSnoc(epoch, DownRun(spec, epoch, n - 1), ApiDown(spec, now));
    }
  }

  /** The circuit breaker does not bound a scheduled GitCommit. The execution record does not carry
      the REST entries, so no call is ever counted: for every n there is a run, without a single
      lost write, that calls the first API n times. */
  lemma {:induction false} ScheduledCallsAreUnbounded(spec: Spec, epoch: Time, n: nat)
    requires spec.schedule.Success? && spec.apis != []
    ensures Chronological(epoch, DownRun(spec, epoch, n))
    ensures CallsOver(spec, epoch, DownRun(spec, epoch, n), 0) == n
    ensures var now := TickAfter(spec.schedule.value, epoch, n);
            TimerOf(StatusAfter(spec, epoch, DownRun(spec, epoch, n)))
            == if n == 0 then Timer(None, None) else Timer(Some(now), Some(Next(spec.schedule.value, now)))
  {
    hide ScheduledGitCommit.Reconcile, CheckAll, ApiDown, Calls, Chronological;
    DownRunIsChronological(spec, epoch, n);
    if n == 0 {
      assert Steps(spec, epoch, []) == [];
    } else {
      ScheduledCallsAreUnbounded(spec, epoch, n - 1);
      OneMoreCall(spec, epoch, DownRun(spec, epoch, n - 1), TickAfter(spec.schedule.value, epoch, n));
    }
  }
}
