/** The API server as one object's status is seen through it: reads that may be out of date,
    writes guarded by the resource version, and other clients writing at any moment. */
module StatusServer {
  import opened Wrappers
  import opened Api

  datatype Snapshot<R> = Snapshot(version: nat, status: Status<R>)

  // A write the server accepted; own if it came from this controller.
  datatype Write<R> = Write(own: bool, before: Status<R>, after: Status<R>)

  // Nothing but other clients' writes happened from one log to a later one.
  ghost predicate ForeignOnly<R>(before: seq<Write<R>>, after: seq<Write<R>>) {
    before <= after && forall i :: |before| <= i < |after| ==> !after[i].own
  }

  // Exactly one own write happened; it came last and turned the status from into to.
  ghost predicate OneOwnWrite<R>(before: seq<Write<R>>, after: seq<Write<R>>, from: Status<R>, to: Status<R>) {
    && after != []
    && after[|after| - 1] == Write(true, from, to)
    && ForeignOnly(before, after[..|after| - 1])
  }

  lemma ForeignThenOwn<R>(a: seq<Write<R>>, b: seq<Write<R>>, from: Status<R>, to: Status<R>)
    requires ForeignOnly(a, b)
    ensures OneOwnWrite(a, b + [Write(true, from, to)], from, to)
  {
    assert (b + [Write(true, from, to)])[..|b|] == b;
  }

  // The status a log of writes leaves behind.
  ghost function Replay<R>(initial: Status<R>, log: seq<Write<R>>): Status<R> {
    if log == [] then initial else log[|log| - 1].after
  }

  // Each accepted write starts from what the one before it left.
  ghost predicate Linked<R>(initial: Status<R>, log: seq<Write<R>>) {
    log == [] ||
    var init, w := log[..|log| - 1], log[|log| - 1];
    Linked(initial, init) && w.before == Replay(initial, init)
  }

  lemma LinkedExtend<R>(initial: Status<R>, log: seq<Write<R>>, w: Write<R>)
    requires Linked(initial, log) && w.before == Replay(initial, log)
    ensures Linked(initial, log + [w])
  {
    assert (log + [w])[..|log|] == log;
  }

  class Server<R(0)> {
    const foreign: bool  // do other clients write this status?
    var version: nat
    var status: Status<R>
    var clock: Time
    ghost const initial: Status<R>
    ghost var log: seq<Write<R>>
    ghost var updates: nat  // update requests received from this controller
    ghost var failures: nat  // requests of this controller that were answered with an error

    ghost predicate Valid()
      reads this
    {
      && version == |log|
      && status == Replay(initial, log)
      && Linked(initial, log)
      && (!foreign ==> forall i :: 0 <= i < |log| ==> log[i].own)
    }

    constructor (initial: Status<R>, foreign: bool, clock: Time)
      ensures Valid() && status == initial && log == [] && updates == 0 && failures == 0
      ensures this.foreign == foreign && this.clock == clock
    {
      this.foreign, this.version, this.status, this.clock := foreign, 0, initial, clock;
      this.initial, this.log, this.updates, this.failures := initial, [], 0, 0;
    }

    method Now() returns (t: Time)
      requires Valid()
      modifies this`clock
      ensures Valid()
      ensures old(clock) <= t == clock
    {
      var elapsed: nat :| true;
      clock := clock + elapsed;
      t := clock;
    }

    // Any number of writes by other clients.
    method Interfere()
      requires Valid()
      modifies this`version, this`status, this`log
      ensures Valid()
      ensures ForeignOnly(old(log), log) && (!foreign ==> log == old(log))
    {
      if foreign {
        var writes: nat :| true;
        for i := 0 to writes
          invariant Valid()
          invariant ForeignOnly(old(log), log)
        {
          var s: Status<R> :| true;
          LinkedExtend(initial, log, Write(false, status, s));
          log := log + [Write(false, status, s)];
          version, status := version + 1, s;
        }
      }
    }

    /** A read, possibly through a cache: it may return an older version, but a copy that carries
        the current version is the current status. */
    method Get() returns (r: Result<Snapshot<R>, ApiError>)
      requires Valid()
      modifies this`version, this`status, this`log, this`failures
      ensures Valid()
      ensures ForeignOnly(old(log), log) && (!foreign ==> log == old(log))
      ensures failures == old(failures) + if r.Failure? then 1 else 0
      ensures r.Success? ==>
                && r.value.version <= version
                && (r.value.version == version ==> r.value.status == status)
      ensures r.Failure? ==> !r.error.Conflict?
    {
      Interfere();
      if * {
        r := Success(Snapshot(version, status));
      } else if * {
        var v: nat, s: Status<R> :| true;
        r := if v < version then Success(Snapshot(v, s)) else Failure(NotFound);
      } else {
        r := Failure(Other);
      }
      failures := failures + if r.Failure? then 1 else 0;
    }

    /** Status().Update: accepted only if nobody wrote since the snapshot was current. */
    method Update(snap: Snapshot<R>) returns (err: Option<ApiError>)
      requires Valid() && snap.version <= version
      modifies this`version, this`status, this`log, this`updates, this`failures
      ensures Valid()
      ensures updates == old(updates) + 1
      ensures failures == old(failures) + if err.Some? then 1 else 0
      ensures err.None? ==>
                && snap.version == old(version)
                && log == old(log) + [Write(true, old(status), snap.status)]
      ensures err.Some? ==> ForeignOnly(old(log), log) && (!foreign ==> log == old(log))
    {
      updates := updates + 1;
      Interfere();
      if version != snap.version {
        err := Some(Conflict);
      } else if * {
        var e: ApiError :| true;
        err := Some(e);
      } else {
        LinkedExtend(initial, log, Write(true, status, snap.status));
        log := log + [Write(true, status, snap.status)];
        version, status := version + 1, snap.status;
        err := None;
      }
      failures := failures + if err.Some? then 1 else 0;
    }

    // What becomes of the object is up to the caller to say.
    method Delete() returns (failed: bool)
      requires Valid()
      modifies this`failures
      ensures Valid()
      ensures failures == old(failures) + if failed then 1 else 0
    {
      failed :| true;
      failures := failures + if failed then 1 else 0;
    }
  }

  // The controller's in-memory copy of the object, which the helpers keep up to date.
  class Resource<R> {
    var status: Status<R>

    constructor (status: Status<R>)
      ensures this.status == status
    {
      this.status := status;
    }
  }

  // The controller is the only writer, and its copy is current but for the REST entries.
  ghost predicate Current<R(0)>(server: Server<R>, res: Resource<R>)
    reads server, res
  {
    && server.Valid() && !server.foreign
    && res.status.(restStatuses := server.status.restStatuses) == server.status
  }
}
