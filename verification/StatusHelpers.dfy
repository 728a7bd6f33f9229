/** The status helpers: bounded retry loops that refine one atomic status change or none.

    GitCommit and PullRequest carry separate copies of RecordExecution, UpdateScheduleStatus and
    UpdateNextScheduledTime that differ only in the result they record. */
module StatusHelpers {
  import opened Wrappers
  import opened Api
  import opened StatusServer

  const MAX_RETRIES := 3

  /* What each helper does to the status it finds on the server. */

  // updateStatus of GitCommit. "" is the SHA of a resource that has none.
  function WithPhase(own: Status<string>, current: Status<string>, phase: Phase, message: string, now: Time)
    : Status<string>
  {
    current.(phase := phase, message := message, lastSync := Some(now),
           restStatuses := if |own.restStatuses| > 0 then own.restStatuses else current.restStatuses,
           result := if own.result != "" then own.result else current.result)
  }

  // The length of the history, ten by default.
  function Limit(maxHistory: Option<nat>): nat {
    if maxHistory.Some? then maxHistory.value else 10
  }

  function Truncate<T>(s: seq<T>, limit: nat): seq<T> {
    if |s| > limit then s[..limit] else s
  }

  function WithExecution<R>(own: Status<R>, current: Status<R>, record: Record<R>, next: Option<Time>, limit: nat)
    : Status<R>
  {
    current.(history := Truncate([record] + current.history, limit),
           phase := record.phase, message := record.message, result := record.result,
           lastSync := Some(record.time),
           lastScheduled := own.lastScheduled,
           nextScheduled := if next.Some? then next else current.nextScheduled)
  }

  /** The record comes first and the others move back by one, the last of them out if the limit is reached;
      the start comes from the copy, the next time only if one is given, and the REST entries stay. */
  lemma ExecutionUpdateSets<R>(own: Status<R>, current: Status<R>, record: Record<R>, next: Option<Time>, limit: nat)
    ensures var t := WithExecution(own, current, record, next, limit);
            && t.phase == record.phase && t.message == record.message && t.result == record.result
            && t.lastSync == Some(record.time) && t.lastScheduled == own.lastScheduled
            && t.nextScheduled == (if next.None? then current.nextScheduled else next)
            && t.restStatuses == current.restStatuses
            && |t.history| == (if |current.history| + 1 < limit then |current.history| + 1 else limit)
            && forall i :: 0 <= i < |t.history| ==>
                 t.history[i] == if i == 0 then record else current.history[i - 1]
  {
  }

  function WithSchedule<R>(own: Status<R>, current: Status<R>, phase: Phase, message: string, now: Time)
    : Status<R>
  {
    current.(phase := phase, message := message, lastSync := Some(now),
           lastScheduled := if own.lastScheduled.Some? then own.lastScheduled else current.lastScheduled,
           nextScheduled := if own.nextScheduled.Some? then own.nextScheduled else current.nextScheduled,
           restStatuses := if |own.restStatuses| > 0 then own.restStatuses else current.restStatuses,
           history := if |own.history| > 0 then own.history else current.history)
  }

  /** The phase update takes from its copy a result and REST entries, if there are any, and nothing else;
      beyond phase, message and time it changes nothing exactly if these were stored already. */
  lemma PhaseUpdateKeepsIff(own: Status<string>, current: Status<string>, phase: Phase, message: string, now: Time)
    ensures var t := WithPhase(own, current, phase, message, now);
            && t.phase == phase && t.message == message && t.lastSync == Some(now)
            && t.history == current.history && t.lastScheduled == current.lastScheduled
            && t.nextScheduled == current.nextScheduled
            && (t.(phase := current.phase, message := current.message, lastSync := current.lastSync) == current <==>
                 && (own.restStatuses != [] ==> own.restStatuses == current.restStatuses)
                 && (own.result != "" ==> own.result == current.result))
  {
  }

  /** Unlike the other helpers, this one writes back times, entries and history from the copy it was
      given: what others stored there meanwhile survives exactly as far as the copy has nothing else to
      say. Whatever it does, the result is not its business. */
  lemma ScheduleUpdateKeepsIff<R>(own: Status<R>, current: Status<R>, phase: Phase, message: string, now: Time)
    ensures var t := WithSchedule(own, current, phase, message, now);
            && t.phase == phase && t.message == message && t.lastSync == Some(now) && t.result == current.result
            && (t.(phase := current.phase, message := current.message, lastSync := current.lastSync) == current <==>
                 && (own.lastScheduled.Some? ==> own.lastScheduled == current.lastScheduled)
                 && (own.nextScheduled.Some? ==> own.nextScheduled == current.nextScheduled)
                 && (own.restStatuses != [] ==> own.restStatuses == current.restStatuses)
                 && (own.history != [] ==> own.history == current.history))
  {
  }

  /** Instance: a record stored between the reading of a copy with a history and its write is lost, by
      an update that changes no more than the phase. */
  lemma StaleCopyLosesRecord<R>(own: Status<R>, record: Record<R>, limit: nat, phase: Phase, message: string, now: Time)
    requires own.history != [] && limit > 0
    requires record != own.history[0]
    ensures var recorded := WithExecution(own, own, record, None, limit);
            && recorded.history[0] == record
            && WithSchedule(own, recorded, phase, message, now).history == own.history != recorded.history
  {
  }

  /* The loops. Each contract says the same: no error means exactly one write, the helper's
     change applied to the status the server held at that moment; an error means no write. */

  /** GitCommit's updateStatus. It never reports a conflict, only that retries ran out, so the
      caller's back-off on conflict is never taken. */
  method UpdateStatus(server: Server<string>, res: Resource<string>, phase: Phase, message: string)
    returns (err: Option<ApiError>, ghost seen: Status<string>)
    requires server.Valid()
    modifies server, res
    ensures server.Valid() && old(server.clock) <= server.clock
    ensures server.updates <= old(server.updates) + 3
    ensures old(server.failures) + (if err.Some? then 1 else 0) <= server.failures
    ensures err != Some(Conflict)
    ensures err.Some? ==> ForeignOnly(old(server.log), server.log) && res.status == old(res.status)
    ensures !server.foreign ==> seen == old(server.status)
    ensures !server.foreign && err.Some? ==> server.status == old(server.status)
    ensures err.None? ==>
              && OneOwnWrite(old(server.log), server.log, seen,
                             WithPhase(old(res.status), seen, phase, message, server.clock))
              && res.status == server.status
  {
    hide WithPhase;
    seen := server.status;
    for i := 0 to MAX_RETRIES
      invariant server.Valid() && old(server.clock) <= server.clock
      invariant ForeignOnly(old(server.log), server.log)
      invariant !server.foreign ==> server.log == old(server.log) && seen == old(server.status)
      invariant server.updates <= old(server.updates) + i
      invariant old(server.failures) + (if i > 0 then 1 else 0) <= server.failures
      invariant res.status == old(res.status)
    {
      var got := server.Get();
      seen := server.status;
      if got.Failure? {
        err := Some(got.error);
        return;
      }
      var now := server.Now();
      var current := WithPhase(res.status, got.value.status, phase, message, now);
      ghost var log := server.log;
      err := server.Update(Snapshot(got.value.version, current));
      if err.None? {
        ForeignThenOwn(old(server.log), log, seen, current);
        res.status := current;
        return;
      }
      if err.value != Conflict {
        return;
      }
    }
    err := Some(Other);
  }

  /** recordExecution and recordPRExecution (which passes no next time): an atomic
      prepend-and-truncate of the history. */
  method RecordExecution<R(0)>(server: Server<R>, res: Resource<R>, result: R, phase: Phase, message: string,
                               next: Option<Time>, limit: nat)
    returns (err: Option<ApiError>, ghost seen: Status<R>)
    requires server.Valid()
    modifies server, res
    ensures server.Valid() && old(server.clock) <= server.clock
    ensures server.updates <= old(server.updates) + 3
    ensures err == Some(Conflict) ==> server.updates == old(server.updates) + 3
    ensures old(server.failures) + (if err.Some? then 1 else 0) <= server.failures
    ensures err.Some? ==> ForeignOnly(old(server.log), server.log) && res.status == old(res.status)
    ensures !server.foreign ==> seen == old(server.status)
    ensures !server.foreign && err.Some? ==> server.status == old(server.status)
    ensures err.None? ==>
              && OneOwnWrite(old(server.log), server.log, seen,
                             WithExecution(old(res.status), seen,
                                  Record(server.clock, result, phase, message), next, limit))
              && res.status == server.status
  {
    hide WithExecution;
    seen := server.status;
    for i := 0 to MAX_RETRIES
      invariant server.Valid() && old(server.clock) <= server.clock
      invariant ForeignOnly(old(server.log), server.log)
      invariant !server.foreign ==> server.log == old(server.log) && seen == old(server.status)
      invariant server.updates == old(server.updates) + i
      invariant old(server.failures) + (if i > 0 then 1 else 0) <= server.failures
      invariant res.status == old(res.status)
    {
      var got := server.Get();
      seen := server.status;
      if got.Failure? {
        err := Some(got.error);
        return;
      }
      var now := server.Now();
      var current := WithExecution(res.status, got.value.status, Record(now, result, phase, message), next, limit);
      ghost var log := server.log;
      err := server.Update(Snapshot(got.value.version, current));
      if err.Some? {
        if err.value == Conflict && i < MAX_RETRIES - 1 {
          continue;
        }
        return;
      }
      ForeignThenOwn(old(server.log), log, seen, current);
      res.status := current;
      return;
    }
    err := Some(Other);
  }

  method UpdateScheduleStatus<R(0)>(server: Server<R>, res: Resource<R>, phase: Phase, message: string)
    returns (err: Option<ApiError>, ghost seen: Status<R>)
    requires server.Valid()
    modifies server, res
    ensures server.Valid() && old(server.clock) <= server.clock
    ensures server.updates <= old(server.updates) + 3
    ensures err == Some(Conflict) ==> server.updates == old(server.updates) + 3
    ensures old(server.failures) + (if err.Some? then 1 else 0) <= server.failures
    ensures err.Some? ==> ForeignOnly(old(server.log), server.log) && res.status == old(res.status)
    ensures !server.foreign ==> seen == old(server.status)
    ensures !server.foreign && err.Some? ==> server.status == old(server.status)
    ensures err.None? ==>
              && OneOwnWrite(old(server.log), server.log, seen,
                             WithSchedule(old(res.status), seen, phase, message, server.clock))
              && res.status == server.status
  {
    hide WithSchedule;
    seen := server.status;
    for i := 0 to MAX_RETRIES
      invariant server.Valid() && old(server.clock) <= server.clock
      invariant ForeignOnly(old(server.log), server.log)
      invariant !server.foreign ==> server.log == old(server.log) && seen == old(server.status)
      invariant server.updates == old(server.updates) + i
      invariant old(server.failures) + (if i > 0 then 1 else 0) <= server.failures
      invariant res.status == old(res.status)
    {
      var got := server.Get();
      seen := server.status;
      if got.Failure? {
        err := Some(got.error);
        return;
      }
      var now := server.Now();
      var current := WithSchedule(res.status, got.value.status, phase, message, now);
      ghost var log := server.log;
      err := server.Update(Snapshot(got.value.version, current));
      if err.Some? {
        if err.value == Conflict && i < MAX_RETRIES - 1 {
          continue;
        }
        return;
      }
      ForeignThenOwn(old(server.log), log, seen, current);
      res.status := current;
      return;
    }
    err := Some(Other);
  }

  /** Only the next time changes, on the server and in memory. */
  method UpdateNextScheduledTime<R(0)>(server: Server<R>, res: Resource<R>, next: Time)
    returns (err: Option<ApiError>, ghost seen: Status<R>)
    requires server.Valid()
    modifies server, res
    ensures server.Valid() && old(server.clock) <= server.clock
    ensures server.updates <= old(server.updates) + 3
    ensures err == Some(Conflict) ==> server.updates == old(server.updates) + 3
    ensures old(server.failures) + (if err.Some? then 1 else 0) <= server.failures
    ensures err.Some? ==> ForeignOnly(old(server.log), server.log) && res.status == old(res.status)
    ensures !server.foreign ==> seen == old(server.status)
    ensures !server.foreign && err.Some? ==> server.status == old(server.status)
    ensures err.None? ==>
              && OneOwnWrite(old(server.log), server.log, seen,
                             seen.(nextScheduled := Some(next)))
              && res.status == old(res.status).(nextScheduled := Some(next))
  {
    seen := server.status;
    for i := 0 to MAX_RETRIES
      invariant server.Valid() && old(server.clock) <= server.clock
      invariant ForeignOnly(old(server.log), server.log)
      invariant !server.foreign ==> server.log == old(server.log) && seen == old(server.status)
      invariant server.updates == old(server.updates) + i
      invariant old(server.failures) + (if i > 0 then 1 else 0) <= server.failures
      invariant res.status == old(res.status)
    {
      var got := server.Get();
      seen := server.status;
      if got.Failure? {
        err := Some(got.error);
        return;
      }
      var current := got.value.status.(nextScheduled := Some(next));
      ghost var log := server.log;
      err := server.Update(Snapshot(got.value.version, current));
      if err.Some? {
        if err.value == Conflict && i < MAX_RETRIES - 1 {
          continue;
        }
        return;
      }
      ForeignThenOwn(old(server.log), log, seen, current);
      res.status := res.status.(nextScheduled := Some(next));
      return;
    }
    err := Some(Other);
  }
}
