/** The GitChangeOperator reconciler against an API server on which anyone may edit the spec at any
    moment: its steps in place, and what the stored generation can be trusted for. */
module OperatorReconciler {
  import opened Wrappers
  import opened Api
  import opened OwnedObjects

  const READY := "Ready"

  // The object as the server hands it out.
  datatype Gco = Gco(
    version: nat, generation: nat, spec: Spec, finalizer: bool, deleting: bool, phase: string, observed: nat)

  // What the reconciler has done: moved an owned object for some generation, or reported Ready for it.
  datatype Event = Moved(generation: nat, move: Move) | Reported(generation: nat)

  function Moves(generation: nat, moves: seq<Move>): (r: seq<Event>)
    ensures |r| == |moves|
  {
    seq(|moves|, i requires 0 <= i < |moves| => Moved(generation, moves[i]))
  }

  // The report at position p closes a full pass over the plan of the spec of its generation.
  ghost predicate ClosesPass(specs: seq<Spec>, log: seq<Event>, p: nat)
    requires p < |log|
  {
    var g := log[p].generation;
    && 1 <= g <= |specs|
    && var moves := Moves(g, Plan(specs[g - 1]));
       |moves| <= p && log[p - |moves|..p] == moves
  }

  /** Every Ready was reported right after every move for the spec of its generation succeeded. */
  ghost predicate Justified(specs: seq<Spec>, log: seq<Event>) {
    forall p :: 0 <= p < |log| && log[p].Reported? ==> ClosesPass(specs, log, p)
  }

  lemma NewSpecJustified(specs: seq<Spec>, log: seq<Event>, spec: Spec)
    requires Justified(specs, log)
    ensures Justified(specs + [spec], log)
  {
    forall p | 0 <= p < |log| && log[p].Reported? ensures ClosesPass(specs + [spec], log, p) {
      assert ClosesPass(specs, log, p);
    }
  }

  lemma MovesJustified(specs: seq<Spec>, log: seq<Event>, g: nat, moves: seq<Move>)
    requires Justified(specs, log)
    ensures Justified(specs, log + Moves(g, moves))
  {
    var more := log + Moves(g, moves);
    forall p | 0 <= p < |more| && more[p].Reported? ensures ClosesPass(specs, more, p) {
      assert ClosesPass(specs, log, p);
      var n := |Plan(specs[log[p].generation - 1])|;
      assert more[p - n..p] == log[p - n..p];
    }
  }

  lemma ReportJustified(specs: seq<Spec>, before: seq<Event>, log: seq<Event>, g: nat)
    requires Justified(specs, log) && 1 <= g <= |specs|
    requires log == before + Moves(g, Plan(specs[g - 1]))
    ensures Justified(specs, log + [Reported(g)])
  {
    var more := log + [Reported(g)];
    forall p | 0 <= p < |more| && more[p].Reported? ensures ClosesPass(specs, more, p) {
      if p < |log| {
        assert ClosesPass(specs, log, p);
        var n := |Plan(specs[log[p].generation - 1])|;
        assert more[p - n..p] == log[p - n..p];
      } else {
        assert more[|before|..p] == Moves(g, Plan(specs[g - 1]));
      }
    }
  }

  // One more move.
  lemma ApplySnoc(c: Context, moves: seq<Move>, m: Move, from: Owned) returns (more: seq<Move>)
    ensures more == moves + [m] && ApplyAll(c, more, from) == Apply(c, m, ApplyAll(c, moves, from))
  {
    more := moves + [m];
    ApplyAllSplit(c, moves, [m], from);
  }

  // What a reconcile of a live object comes to: the plan up to the first failure, noted in the log; or
  // all of it, with everything the plan is for in place as the spec describes it, and a report.
  ghost predicate Passed(c: Context, g: nat, failed: bool, done: seq<Move>, from: Owned, to: Owned,
                          before: seq<Event>, after: seq<Event>)
  {
    && done <= Plan(c.spec)
    && to == ApplyAll(c, done, from)
    && if failed then after == before + Moves(g, done)
       else
         && after == before + Moves(g, Plan(c.spec)) + [Reported(g)]
         && Image(c) != "" && (forall m :: m in Plan(c.spec) ==> Wanted(c, m, to)) && AsSpecified(c, to)
  }

  lemma NothingPassed(c: Context, g: nat, o: Owned, log: seq<Event>)
    ensures Passed(c, g, true, [], o, o, log, log)
  {
    assert log + Moves(g, []) == log;
  }

  class Cluster {
    const name: string
    const env: Environment
    const cached: bool  // may reads be out of date?
    var present: bool
    var stored: Gco
    var owned: Owned
    var specs: seq<Spec>  // the spec of each generation so far, the first generation being 1
    ghost var log: seq<Event>
    ghost var reports: nat  // status updates requested

    /** The stored generation is one that existed, no later than the current one, and a Ready phase was
        reported for it. */
    ghost predicate Valid()
      reads this
    {
      && stored.generation == |specs| >= 1 && stored.spec == specs[|specs| - 1]
      && stored.observed <= stored.generation
      && Justified(specs, log)
      && (stored.phase == READY ==> Reported(stored.observed) in log)
    }

    constructor (name: string, env: Environment, cached: bool, spec: Spec, owned: Owned)
      ensures Valid() && this.name == name && this.env == env && this.cached == cached && this.owned == owned
      ensures present && log == [] && specs == [spec] && stored == Gco(1, 1, spec, false, false, "", 0)
    {
      this.name, this.env, this.cached, this.present, this.owned := name, env, cached, true, owned;
      stored := Gco(1, 1, spec, false, false, "", 0);
      specs, log, reports := [spec], [], 0;
    }

    // Any number of edits of the spec, the finalizers and the deletion mark by other clients.
    method Interfere()
      requires Valid()
      modifies this`stored, this`present, this`specs
      ensures Valid() && old(specs) <= specs && old(stored.version) <= stored.version
      ensures stored.phase == old(stored.phase) && stored.observed == old(stored.observed)
      ensures stored.version == old(stored.version) ==> stored == old(stored) && specs == old(specs)
    {
      var edits: nat :| true;
      for i := 0 to edits
        invariant Valid() && old(specs) <= specs && old(stored.version) <= stored.version
        invariant stored.phase == old(stored.phase) && stored.observed == old(stored.observed)
        invariant stored.version == old(stored.version) ==> stored == old(stored) && specs == old(specs)
      {
        var finalizer: bool, deleting: bool :| stored.deleting ==> deleting;
        stored := stored.(version := stored.version + 1, finalizer := finalizer, deleting := deleting);
        present := present && (finalizer || !deleting);
        if * {
          var spec: Spec :| true;
          NewSpecJustified(specs, log, spec);
          specs := specs + [spec];
          stored := stored.(generation := stored.generation + 1, spec := spec);
        }
      }
    }

    /** A read of the object, possibly through a cache. An outdated copy still pairs a generation that
        existed with its spec. */
    method Get() returns (r: Result<Gco, ApiError>)
      requires Valid()
      modifies this`stored, this`present, this`specs
      ensures Valid() && old(specs) <= specs
      ensures stored.phase == old(stored.phase) && stored.observed == old(stored.observed)
      ensures r.Success? ==>
                && r.value.version <= stored.version && (r.value.version == stored.version ==> r.value == stored)
                && 1 <= r.value.generation <= |specs| && r.value.spec == specs[r.value.generation - 1]
                && (!cached ==> r.value == stored)
      ensures r.Failure? ==> !r.error.Conflict?
    {
      Interfere();
      var served: bool, stale: bool :| true;
      if present && served {
        r := Success(stored);
      } else if cached && stored.version > 0 && stale {
        assert 0 < stored.version && 1 <= |specs|;
        var v: nat, g: nat :| v < stored.version && 1 <= g <= |specs|;
        var f: bool, d: bool, p: string, o: nat :| true;
        r := Success(Gco(v, g, specs[g - 1], f, d, p, o));
      } else {
        var missing: bool :| true;
        r := Failure(if missing then NotFound else Other);
      }
    }

    /** An update of the finalizers, sent with everything else as it was read; the API accepts it only
        for the version that was read. Removing the last finalizer of a deleted object removes it. */
    method UpdateFinalizer(copy: Gco, finalizer: bool) returns (err: Option<ApiError>, now: Gco)
      requires Valid() && copy.version <= stored.version && (copy.version == stored.version ==> copy == stored)
      modifies this`stored, this`present, this`specs
      ensures Valid() && old(specs) <= specs
      ensures stored.phase == old(stored.phase) && stored.observed == old(stored.observed)
      ensures err.None? ==>
                && now == stored == copy.(version := copy.version + 1, finalizer := finalizer)
                && specs == old(specs)
                && (copy.deleting && !finalizer ==> !present)
    {
      now := copy;
      Interfere();
      if !present || copy.version != stored.version {
        return Some(if present then Conflict else NotFound), now;
      }
      if * {
        return Some(Other), now;
      }
      now := copy.(version := copy.version + 1, finalizer := finalizer);
      stored := now;
      present := present && (finalizer || !copy.deleting);
      err := None;
    }

    method UpdateStatus(copy: Gco, ghost before: seq<Event>) returns (err: Option<ApiError>)
      requires Valid() && copy.version <= stored.version && copy.phase == READY && 1 <= copy.observed <= |specs|
      requires log == before + Moves(copy.observed, Plan(specs[copy.observed - 1]))
      modifies this`stored, this`present, this`specs, this`log, this`reports
      ensures Valid() && old(specs) <= specs && reports == old(reports) + 1
      ensures err.Some? ==>
                log == old(log) && stored.phase == old(stored.phase) && stored.observed == old(stored.observed)
      ensures err.None? ==>
                && log == old(log) + [Reported(copy.observed)]
                && stored.phase == READY && stored.observed == copy.observed
    {
      reports := reports + 1;
      Interfere();
      if !present || copy.version != stored.version {
        return Some(if present then Conflict else NotFound);
      }
      if * {
        return Some(Other);
      }
      ReportJustified(specs, before, log, copy.observed);
      log := log + [Reported(copy.observed)];
      stored := stored.(version := stored.version + 1, phase := copy.phase, observed := copy.observed);
      err := None;
    }

    /* The steps. Each makes its move, or fails and leaves the owned objects as they are: the image
       may not be configured, and any request may fail. */

    method ReconcileDeployment(c: Context) returns (failed: bool)
      modifies this`owned
      ensures owned == if failed then old(owned) else Apply(c, EnsureDeployment, old(owned))
      ensures !failed ==> Image(c) != ""
    {
      failed :| Image(c) == "" ==> failed;
      if failed {
        return;
      }
      var n := DeploymentName(c);
      if n !in owned.deployments {
        owned := owned.(deployments := owned.deployments[n := NewDeployment(c)]);
        return;
      }
      var found := owned.deployments[n].(replicas := Replicas(c));
      if |found.containers| > 0 {
        var first := found.containers[0].(image := Image(c), args := Args(c));
        found := found.(containers := found.containers[0 := first]);
      }
      assert found == UpdateDeployment(c, owned.deployments[n]);
      owned := owned.(deployments := owned.deployments[n := found]);
    }

    method ReconcileServiceAccount(c: Context) returns (failed: bool)
      modifies this`owned
      ensures owned == if failed then old(owned) else Apply(c, EnsureAccount, old(owned))
    {
      failed :| true;
      if !failed {
        // Created, or replaced altogether.
        owned := owned.(accounts := owned.accounts[AccountName(c) := NewAccount(c)]);
      }
    }

    method ReconcileRole(c: Context) returns (failed: bool)
      modifies this`owned
      ensures owned == if failed then old(owned) else Apply(c, EnsureRole, old(owned))
    {
      failed :| true;
      if failed {
        return;
      }
      var n, role := RoleName(c), NewRole(c);
      if n in owned.roles {
        role := owned.roles[n].(rules := role.rules);
      }
      owned := owned.(roles := owned.roles[n := role]);
    }

    method ReconcileRoleBinding(c: Context) returns (failed: bool)
      modifies this`owned
      ensures owned == if failed then old(owned) else Apply(c, EnsureBinding, old(owned))
    {
      failed :| true;
      if failed {
        return;
      }
      var n, binding := BindingName(c), NewBinding(c);
      if n in owned.bindings {
        binding := owned.bindings[n].(subjects := binding.subjects);
      }
      owned := owned.(bindings := owned.bindings[n := binding]);
    }

    method ReconcileMetricsService(c: Context) returns (failed: bool)
      modifies this`owned
      ensures owned == if failed then old(owned) else Apply(c, EnsureService, old(owned))
    {
      failed :| true;
      if failed {
        return;
      }
      var n, service := ServiceName(c), NewService(c);
      if n in owned.services {
        service := owned.services[n].(kind := service.kind, ports := service.ports);
      }
      owned := owned.(services := owned.services[n := service]);
    }

    // A Service that is not there counts as deleted, and so below.
    method DeleteMetricsService(c: Context) returns (failed: bool)
      modifies this`owned
      ensures owned == if failed then old(owned) else Apply(c, DropService, old(owned))
    {
      failed :| true;
      if !failed {
        owned := owned.(services := owned.services - {DeletedServiceName(c)});
      }
    }

    method ReconcileServiceMonitor(c: Context) returns (failed: bool)
      modifies this`owned
      ensures owned == if failed then old(owned) else Apply(c, EnsureMonitor, old(owned))
    {
      failed :| true;
      if !failed {
        owned := owned.(monitors := owned.monitors[MonitorName(c) := NewMonitor(c)]);
      }
    }

    method DeleteServiceMonitor(c: Context) returns (failed: bool)
      modifies this`owned
      ensures owned == if failed then old(owned) else Apply(c, DropMonitor, old(owned))
    {
      failed :| true;
      if !failed {
        owned := owned.(monitors := owned.monitors - {MonitorName(c)});
      }
    }

    method ReconcileIngress(c: Context) returns (failed: bool)
      modifies this`owned
      ensures owned == if failed then old(owned) else Apply(c, EnsureIngress, old(owned))
    {
      failed :| true;
      if failed {
        return;
      }
      var n := IngressName(c);
      var ingress := BuildIngress(c);
      if n in owned.ingresses {
        var found := owned.ingresses[n];
        ingress := found.(className := ingress.className, rules := ingress.rules, tls := ingress.tls,
                          labels := ingress.labels, annotations := ingress.annotations);
      }
      owned := owned.(ingresses := owned.ingresses[n := ingress]);
    }

    method DeleteIngress(c: Context) returns (failed: bool)
      modifies this`owned
      ensures owned == if failed then old(owned) else Apply(c, DropIngress, old(owned))
    {
      failed :| true;
      if !failed {
        owned := owned.(ingresses := owned.ingresses - {IngressName(c)});
      }
    }

    /* Groups of steps. What others do to the object meanwhile does not matter to them. */

    method ReconcileCore(c: Context) returns (failed: bool, ghost done: seq<Move>)
      modifies this`owned
      ensures owned == ApplyAll(c, done, old(owned))
      ensures if failed then done <= CorePlan(c.spec) else done == CorePlan(c.spec) && Image(c) != ""
    {
      done := [];
      ghost var from := owned;
      failed := ReconcileDeployment(c);
      if failed {
        return;
      }
      done := ApplySnoc(c, done, EnsureDeployment, from);
      if c.spec.createAccount {
        failed := ReconcileServiceAccount(c);
        if failed {
          return;
        }
        done := ApplySnoc(c, done, EnsureAccount, from);
      }
      if c.spec.createRbac {
        failed := ReconcileRole(c);
        if failed {
          return;
        }
        done := ApplySnoc(c, done, EnsureRole, from);
        failed := ReconcileRoleBinding(c);
        if failed {
          return;
        }
        done := ApplySnoc(c, done, EnsureBinding, from);
      }
    }

    method ReconcileMetrics(c: Context) returns (failed: bool, ghost done: seq<Move>)
      modifies this`owned
      ensures owned == ApplyAll(c, done, old(owned))
      ensures if failed then done <= MetricsPlan(c.spec) else done == MetricsPlan(c.spec)
    {
      done := [];
      ghost var from := owned;
      if c.spec.metrics {
        failed := ReconcileMetricsService(c);
        if failed {
          return;
        }
        done := ApplySnoc(c, done, EnsureService, from);
        if c.spec.monitor {
          failed := ReconcileServiceMonitor(c);
          if !failed {
            done := ApplySnoc(c, done, EnsureMonitor, from);
          }
          return;
        }
      } else {
        failed := DeleteMetricsService(c);
        if failed {
          return;
        }
        done := ApplySnoc(c, done, DropService, from);
      }
      failed := DeleteServiceMonitor(c);
      if !failed {
        done := ApplySnoc(c, done, DropMonitor, from);
      }
    }

    method ReconcileNetwork(c: Context) returns (failed: bool, ghost done: seq<Move>)
      modifies this`owned
      ensures owned == ApplyAll(c, done, old(owned))
      ensures if failed then done <= IngressPlan(c.spec) else done == IngressPlan(c.spec)
    {
      done := [];
      ghost var from := owned;
      if c.spec.ingress {
        failed := ReconcileIngress(c);
        if !failed {
          done := ApplySnoc(c, done, EnsureIngress, from);
        }
      } else {
        failed := DeleteIngress(c);
        if !failed {
          done := ApplySnoc(c, done, DropIngress, from);
        }
      }
    }

    method ReconcileOwned(c: Context) returns (failed: bool, ghost done: seq<Move>)
      modifies this`owned
      ensures owned == ApplyAll(c, done, old(owned))
      ensures if failed then done <= Plan(c.spec) else done == Plan(c.spec) && Image(c) != ""
    {
      ghost var from, more := owned, [];
      failed, done := ReconcileCore(c);
      if failed {
        return;
      }
      failed, more := ReconcileMetrics(c);
      ApplyAllSplit(c, done, more, from);
      done := done + more;
      if failed {
        return;
      }
      failed, more := ReconcileNetwork(c);
      ApplyAllSplit(c, done, more, from);
      done := done + more;
    }

    // Takes note of moves made, which others may have accompanied by edits of the object.
    ghost method Note(g: nat, done: seq<Move>)
      requires Valid()
      modifies this`log
      ensures Valid() && log == old(log) + Moves(g, done)
    {
      MovesJustified(specs, log, g, done);
      log := log + Moves(g, done);
    }

    // RetryOnConflict: up to five attempts, each on a fresh copy, giving up on any other error.
    method ReportReady(observed: nat, ghost before: seq<Event>) returns (err: Option<ApiError>)
      requires Valid() && 1 <= observed <= |specs|
      requires log == before + Moves(observed, Plan(specs[observed - 1]))
      modifies this`stored, this`present, this`specs, this`log, this`reports
      ensures Valid() && old(specs) <= specs && reports <= old(reports) + 5
      ensures err == Some(Conflict) ==> reports == old(reports) + 5
      ensures err.Some? ==>
                log == old(log) && stored.phase == old(stored.phase) && stored.observed == old(stored.observed)
      ensures err.None? ==>
                log == old(log) + [Reported(observed)] && stored.phase == READY && stored.observed == observed
    {
      err := None;
      for i := 0 to 5
        invariant Valid() && old(specs) <= specs && log == old(log) && reports == old(reports) + i
        invariant stored.phase == old(stored.phase) && stored.observed == old(stored.observed)
        invariant i > 0 ==> err == Some(Conflict)
      {
        var latest := Get();
        if latest.Failure? {
          return Some(latest.error);
        }
        err := UpdateStatus(latest.value.(phase := READY, observed := observed), before);
        if err != Some(Conflict) {
          return;
        }
      }
    }

    method HandleDeletion(gco: Gco) returns (failed: bool)
      requires Valid() && gco.version <= stored.version && (gco.version == stored.version ==> gco == stored)
      requires gco.deleting
      modifies this`stored, this`present, this`specs
      ensures Valid() && old(specs) <= specs
      ensures stored.phase == old(stored.phase) && stored.observed == old(stored.observed)
      ensures gco.finalizer && !failed ==> !present
    {
      failed := false;
      if gco.finalizer {
        var err, _ := UpdateFinalizer(gco, false);
        failed := err.Some?;
      }
    }

    // The part of Reconcile that follows the finalizer, on the copy of the object it holds.
    method ReconcileLive(gco: Gco) returns (failed: bool, ghost done: seq<Move>)
      requires Valid() && 1 <= gco.generation <= |specs| && gco.spec == specs[gco.generation - 1]
      modifies this
      ensures Valid() && old(specs) <= specs
      ensures Passed(Context(name, env, gco.spec), gco.generation, failed, done, old(owned), owned, old(log), log)
      ensures if failed then stored.phase == old(stored.phase) && stored.observed == old(stored.observed)
              else stored.phase == READY && stored.observed == gco.generation
    {
      hide Plan, Image, Wanted, AsSpecified, ApplyAll;
      var c := Context(name, env, gco.spec);
      ghost var from, before := owned, log;
      failed, done := ReconcileOwned(c);
      Interfere();
      Note(gco.generation, done);
      if failed {
        return;
      }
      Converges(c, from);
      EndsAsSpecified(c, from);
      var err := ReportReady(gco.generation, before);
      failed := err.Some?;
    }

    // An object that is not being deleted: the finalizer first.
    method ReconcileActive(gco: Gco) returns (failed: bool, ghost done: seq<Move>)
      requires Valid() && gco.version <= stored.version && (gco.version == stored.version ==> gco == stored)
      requires 1 <= gco.generation <= |specs| && gco.spec == specs[gco.generation - 1]
      modifies this
      ensures Valid() && old(specs) <= specs
      ensures Passed(Context(name, env, gco.spec), gco.generation, failed, done, old(owned), owned, old(log), log)
      ensures if failed then stored.phase == old(stored.phase) && stored.observed == old(stored.observed)
              else stored.phase == READY && stored.observed == gco.generation
    {
      if gco.finalizer {
        failed, done := ReconcileLive(gco);
        return;
      }
      var err, now := UpdateFinalizer(gco, true);
      if err.Some? {
        NothingPassed(Context(name, env, gco.spec), gco.generation, owned, log);
        return true, [];
      }
      assert now.spec == gco.spec && now.generation == gco.generation;
      failed, done := ReconcileLive(now);
    }

    /** Reconcile. It works on the spec it read at some generation; whatever is edited meanwhile, the
        moves it makes are the plan of that spec up to the first failure, and Ready is reported for that
        generation if and only if none failed. A deleted object only loses its finalizer. */
    method Reconcile() returns (failed: bool, ghost read: Option<Gco>, ghost done: seq<Move>)
      requires Valid()
      modifies this
      ensures Valid() && old(specs) <= specs
      ensures read.Some? ==>
                && 1 <= read.value.generation <= |specs|
                && read.value.spec == specs[read.value.generation - 1]
      ensures read.Some? && !cached ==> old(stored.generation) <= read.value.generation
      ensures read.Some? && !read.value.deleting ==>
                && Passed(Context(name, env, read.value.spec), read.value.generation, failed, done,
                           old(owned), owned, old(log), log)
                && (!failed ==> stored.phase == READY && stored.observed == read.value.generation)
      ensures read.None? || read.value.deleting ==> owned == old(owned) && log == old(log)
      ensures read.None? || read.value.deleting || failed ==>
                stored.phase == old(stored.phase) && stored.observed == old(stored.observed)
      ensures read.Some? && read.value.deleting && read.value.finalizer && !failed ==> !present
    {
      hide Plan, Image, Wanted, AsSpecified, ApplyAll;
      done, read := [], None;
      var got := Get();
      if got.Failure? {
        return !got.error.NotFound?, read, done;
      }
      var gco := got.value;
      read := Some(gco);
      if gco.deleting {
        failed := HandleDeletion(gco);
        return;
      }
      failed, done := ReconcileActive(gco);
    }
  }
}
