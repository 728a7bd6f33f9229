/** Execution records under concurrency: several clients recording, rescheduling and reporting on the same
    object, each through the helpers, in any interleaving the server accepts. */
module ConcurrentRecords {
  import opened Wrappers
  import opened Api
  import opened StatusServer
  import opened StatusHelpers
  import opened ScheduledRuns

  // What a write does to the history: prepend a record and truncate, keep it, or put back the history of
  // the copy it was made from.
  datatype Effect<R> = Prepends(r: Record<R>) | Keeps | PutsBack(copy: seq<Record<R>>)

  ghost predicate Has<R>(w: Write<R>, e: Effect<R>, limit: nat) {
    w.after.history == match e
                       case Prepends(r) => Truncate([r] + w.before.history, limit)
                       case Keeps => w.before.history
                       case PutsBack(copy) => if |copy| > 0 then copy else w.before.history
  }

  /** What each helper does to the history, whatever copy it starts from. */
  lemma HelpersHave(own: Status<string>, s: Status<string>, r: Record<string>, next: Option<Time>, limit: nat,
                    phase: Phase, message: string, now: Time, n: Time)
    ensures Has(Write(true, s, WithExecution(own, s, r, next, limit)), Prepends(r), limit)
    ensures Has(Write(true, s, WithPhase(own, s, phase, message, now)), Keeps, limit)
    ensures Has(Write(true, s, s.(nextScheduled := Some(n))), Keeps, limit)
    ensures Has(Write(true, s, WithSchedule(own, s, phase, message, now)), PutsBack(own.history), limit)
  {
  }

  // The records that were made, oldest first.
  function Made<R>(effects: seq<Effect<R>>): seq<Record<R>> {
    if effects == [] then []
    else
      var last := effects[|effects| - 1];
      Made(effects[..|effects| - 1]) + if last.Prepends? then [last.r] else []
  }

  lemma TruncateTwice<T>(r: T, s: seq<T>, limit: nat)
    ensures Truncate([r] + Truncate(s, limit), limit) == Truncate([r] + s, limit)
  {
  }

  lemma OneMoreRecord<R>(made: seq<Record<R>>, r: Record<R>, initial: seq<Record<R>>, limit: nat)
    ensures Truncate([r] + Truncate(Reverse(made) + initial, limit), limit)
            == Truncate(Reverse(made + [r]) + initial, limit)
  {
    assert (made + [r])[..|made|] == made;
    assert Reverse(made + [r]) + initial == [r] + (Reverse(made) + initial);
    TruncateTwice(r, Reverse(made) + initial, limit);
  }

  lemma NoneYet<R>(initial: seq<Record<R>>, limit: nat)
    requires |initial| <= limit
    ensures Truncate(Reverse([]) + initial, limit) == initial
  {
    assert Reverse([]) + initial == initial;
  }

  ghost predicate AllHave<R>(log: seq<Write<R>>, effects: seq<Effect<R>>, limit: nat) {
    |effects| == |log| && forall i :: 0 <= i < |log| ==> Has(log[i], effects[i], limit)
  }

  // The stored history is the newest part of all records made, the latest first.
  ghost predicate NothingLost<R>(initial: Status<R>, log: seq<Write<R>>, effects: seq<Effect<R>>, limit: nat) {
    Replay(initial, log).history == Truncate(Reverse(Made(effects)) + initial.history, limit)
  }

  // Nothing is lost at any point.
  ghost predicate NeverLost<R>(initial: Status<R>, log: seq<Write<R>>, effects: seq<Effect<R>>, limit: nat)
    requires |effects| == |log|
  {
    && NothingLost(initial, log, effects, limit)
    && (log == [] || NeverLost(initial, log[..|log| - 1], effects[..|log| - 1], limit))
  }

  // Every history put back is the one that was there.
  ghost predicate CopiesCurrent<R>(log: seq<Write<R>>, effects: seq<Effect<R>>)
    requires |effects| == |log|
  {
    forall i :: 0 <= i < |log| && effects[i].PutsBack? && |effects[i].copy| > 0 ==>
      effects[i].copy == log[i].before.history
  }

  // One write on a history from which nothing was lost.
  lemma OneWrite<R>(initial: Status<R>, log: seq<Write<R>>, effects: seq<Effect<R>>, limit: nat)
    requires log != [] && Linked(initial, log) && AllHave(log, effects, limit)
    requires NothingLost(initial, log[..|log| - 1], effects[..|log| - 1], limit)
    ensures var w, e := log[|log| - 1], effects[|log| - 1];
            NothingLost(initial, log, effects, limit) <==>
              (e.PutsBack? && |e.copy| > 0 ==> e.copy == w.before.history)
  {
    hide Truncate, Reverse;
    var n := |log| - 1;
    assert Has(log[n], effects[n], limit);
    if effects[n].Prepends? {
      OneMoreRecord(Made(effects[..n]), effects[n].r, initial.history, limit);
    } else {
      assert Made(effects[..n]) + [] == Made(effects[..n]);
    }
  }

  /** However the accepted writes of all clients interleave, no record is ever lost exactly when every
      schedule update comes from a copy whose history is current or empty; without schedule updates, none
      is in any case. */
  lemma {:induction false} NeverLostIff<R>(initial: Status<R>, log: seq<Write<R>>, effects: seq<Effect<R>>, limit: nat)
    requires Linked(initial, log) && AllHave(log, effects, limit) && |initial.history| <= limit
    ensures NeverLost(initial, log, effects, limit) <==> CopiesCurrent(log, effects)
  {
    hide NothingLost, Has, Made, Replay;
    if log == [] {
      EmptyLogLosesNothing(initial, limit);
    } else {
      var n := |log| - 1;
      NeverLostIff(initial, log[..n], effects[..n], limit);
      if NeverLost(initial, log[..n], effects[..n], limit) {
        OneWrite(initial, log, effects, limit);
      }
    }
  }

  lemma EmptyLogLosesNothing<R>(initial: Status<R>, limit: nat)
    requires |initial.history| <= limit
    ensures NothingLost<R>(initial, [], [], limit)
  {
    NoneYet(initial.history, limit);
  }

  /** Without schedule updates from outdated copies no record is lost, and the history is the newest part
      of all records made, in the reverse order of the writes that made them. */
  lemma NoRecordIsLost<R>(initial: Status<R>, log: seq<Write<R>>, effects: seq<Effect<R>>, limit: nat)
    requires Linked(initial, log) && AllHave(log, effects, limit) && |initial.history| <= limit
    requires CopiesCurrent(log, effects)
    ensures Replay(initial, log).history == Truncate(Reverse(Made(effects)) + initial.history, limit)
  {
    NeverLostIff(initial, log, effects, limit);
  }
}
