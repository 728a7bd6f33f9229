/** What a one-shot GitCommit does when a reconcile starts from an outdated copy of it: exactly when it
    pushes, and exactly when the copy is harmless. */
module OutdatedCopies {
  import opened Wrappers
  import opened Api
  import opened Text
  import opened StatusHelpers
  import opened RestApis
  import opened Worktree
  import opened ResourceRefs
  import opened GitRemote
  import opened UnscheduledGitCommit
  import opened UnscheduledRuns

  /** A reconcile pushes exactly when it is in time, its copy is not terminal, the Running phase is or gets
      stored, and breaker, conditions, credentials and delivery let it, whatever phase the server holds. */
  lemma PushesIff(spec: Spec, copy: Status<string>, s: Status<string>, env: Env)
    requires |env.xs| == |spec.apis|
    ensures Reconcile(spec, copy, s, env).pushes != [] <==>
              && !Expired(spec, env.now) && !Terminal(copy) && (copy.phase == Running || env.running.Applied?)
              && Passes(spec, Held(copy, s), env.xs)
              && env.auth.None? && Delivery(spec.job, Entries(spec, copy, s, env), env.git).Success?
    ensures |Reconcile(spec, copy, s, env).pushes| <= 1
  {
    hide CheckAll, Delivery, Expired;
  }

  // Do breaker and conditions let a reconcile with these entries go on?
  predicate Passes(spec: Spec, held: seq<RestStatus>, xs: seq<Exchange>)
    requires |xs| == |spec.apis|
  {
    spec.apis == [] || (FirstTripped(held).None? && CheckAll(spec.apis, held, xs, Some(CALL_LIMIT)).1.Met?)
  }

  /* Whether the spec can be delivered at all with the entries held. */

  // Is there a code that the API accepts?
  predicate Answerable(api: RestApi) {
    |api.expectedCodes| == 0 || exists i :: 0 <= i < |api.expectedCodes| && api.expectedCodes[i] >= 0
  }

  ghost function GoodCode(api: RestApi): (code: nat)
    requires Answerable(api)
    ensures AcceptedCode(api, code)
  {
    if |api.expectedCodes| == 0 then 0
    else
      var i :| 0 <= i < |api.expectedCodes| && api.expectedCodes[i] >= 0;
      api.expectedCodes[i]
  }

  // Does the entry have something for the file?
  predicate Fills(source: FileSource, st: RestStatus) {
    && st.formattedOutput != ""
    && if source.restName != "" then st.name == source.restName else st.conditionMet
  }

  lemma {:induction false} NamedIff(sts: seq<RestStatus>, name: string)
    ensures Named(sts, name) != [] <==>
              exists i :: 0 <= i < |sts| && sts[i].name == name && sts[i].formattedOutput != ""
    ensures forall i :: 0 <= i < |Named(sts, name)| ==> Named(sts, name)[i] != ""
  {
    if sts != [] {
      NamedIff(sts[1..], name);
      if i :| 0 < i < |sts| && sts[i].name == name && sts[i].formattedOutput != "" {
        assert sts[1..][i - 1] == sts[i];
      }
    }
  }

  lemma {:induction false} OutputsIff(sts: seq<RestStatus>)
    ensures Outputs(sts) != [] <==> exists i :: 0 <= i < |sts| && sts[i].formattedOutput != "" && sts[i].conditionMet
    ensures forall i :: 0 <= i < |Outputs(sts)| ==> Outputs(sts)[i] != ""
  {
    if sts != [] {
      OutputsIff(sts[..|sts| - 1]);
    }
  }

  lemma {:induction false} JoinIff(parts: seq<string>, delimiter: string)
    requires forall i :: 0 <= i < |parts| ==> parts[i] != ""
    ensures Join(parts, delimiter) != "" <==> parts != []
  {
    if |parts| > 1 {
      assert |Join(parts, delimiter)| >= |parts[0]|;
    }
  }

  lemma ContentIff(source: FileSource, sts: seq<RestStatus>)
    ensures Content(source, sts) != "" <==> exists i :: 0 <= i < |sts| && Fills(source, sts[i])
  {
    hide Named, Outputs, Join;
    NamedIff(sts, source.restName);
    OutputsIff(sts);
    JoinIff(if source.restName != "" then Named(sts, source.restName) else Outputs(sts), Delimiter(source));
  }

  // Can the file get content: without APIs from the entries as they are, and otherwise from an API that is
  // parsed or has an output left?
  predicate CanFill(apis: seq<RestApi>, held: seq<RestStatus>, source: FileSource) {
    if apis == [] then exists i :: 0 <= i < |held| && Fills(source, held[i])
    else exists i :: 0 <= i < |apis| && CanFillFrom(apis[i], Aligned(apis, held)[i], source)
  }

  predicate CanFillFrom(api: RestApi, st: RestStatus, source: FileSource) {
    (api.parsing || st.formattedOutput != "") && (source.restName != "" ==> api.name == source.restName)
  }

  // Met conditions fill no file that cannot be filled, and fill every one that can if all outputs are good.
  lemma FilledIff(apis: seq<RestApi>, held: seq<RestStatus>, xs: seq<Exchange>, source: FileSource)
    requires |apis| == |xs| && apis != [] && CheckAll(apis, held, xs, Some(CALL_LIMIT)).1.Met?
    ensures var entries := CheckAll(apis, held, xs, Some(CALL_LIMIT)).0;
            && (Content(source, entries) != "" ==> CanFill(apis, held, source))
            && (AllGood(xs) && CanFill(apis, held, source) ==> Content(source, entries) != "")
  {
    hide CheckAll, Content;
    var entries := CheckAll(apis, held, xs, Some(CALL_LIMIT)).0;
    forall i | 0 <= i < |apis|
      ensures Fills(source, entries[i]) ==> CanFillFrom(apis[i], Aligned(apis, held)[i], source)
      ensures AllGood(xs) && CanFillFrom(apis[i], Aligned(apis, held)[i], source) ==> Fills(source, entries[i])
    {
      MetIsFresh(apis, held, xs, i, Some(CALL_LIMIT));
    }
    ContentIff(source, entries);
    assert |entries| == |apis|;
  }

  predicate AllGood(xs: seq<Exchange>) {
    forall i :: 0 <= i < |xs| ==>
      xs[i].response.Answer? && xs[i].response.parse.Extracted? && xs[i].response.parse.output != ""
  }

  ghost function GoodExchanges(apis: seq<RestApi>, now: Time): (xs: seq<Exchange>)
    requires forall i :: 0 <= i < |apis| ==> Answerable(apis[i])
    ensures |xs| == |apis| && AllGood(xs)
    ensures forall i :: 0 <= i < |apis| ==> AcceptedCode(apis[i], xs[i].response.code)
  {
    seq(|apis|, i requires 0 <= i < |apis| => Exchange(Answer(GoodCode(apis[i]), "", Extracted("", "x")), now))
  }

  lemma {:induction false} GoodIsMet(apis: seq<RestApi>, sts: seq<RestStatus>, xs: seq<Exchange>, n: nat)
    requires n <= |apis| == |sts| == |xs| && AllGood(xs)
    requires forall i :: 0 <= i < |apis| ==>
               AcceptedCode(apis[i], xs[i].response.code) && !OverLimit(sts[i], Some(CALL_LIMIT))
    ensures CheckUpTo(apis, sts, xs, n, Some(CALL_LIMIT)).1.Met?
  {
    hide AcceptedCode, OverLimit;
    if n > 0 {
      GoodIsMet(apis, sts, xs, n - 1);
    }
  }

  lemma GoodPasses(spec: Spec, held: seq<RestStatus>, now: Time)
    requires FirstTripped(held).None? && forall i :: 0 <= i < |spec.apis| ==> Answerable(spec.apis[i])
    ensures Passes(spec, held, GoodExchanges(spec.apis, now))
  {
    hide AcceptedCode, GoodCode;
    var sts := Aligned(spec.apis, held);
    forall i | 0 <= i < |sts| ensures !OverLimit(sts[i], Some(CALL_LIMIT)) {
      if |held| == |spec.apis| {
        NoneTripped(held, i);
      }
    }
    GoodIsMet(spec.apis, sts, GoodExchanges(spec.apis, now), |spec.apis|);
  }

  // Met conditions come from APIs that can be answered.
  lemma PassesAnswerable(spec: Spec, held: seq<RestStatus>, xs: seq<Exchange>)
    requires |xs| == |spec.apis| && spec.apis != [] && Passes(spec, held, xs)
    ensures forall i :: 0 <= i < |spec.apis| ==> Answerable(spec.apis[i])
  {
    hide CheckAll;
    MetIsAllMet(spec.apis, held, xs, Some(CALL_LIMIT));
    forall i | 0 <= i < |spec.apis| ensures Answerable(spec.apis[i]) {
      var codes := spec.apis[i].expectedCodes;
      if |codes| > 0 {
        var j :| 0 <= j < |codes| && codes[j] == xs[i].response.code;
      }
    }
  }

  // Can the reference yield files that can be written?
  predicate CanRead(c: Crypto, ref: ResourceRef) {
    match ref.strategy
    case Dump => ShouldEncrypt(ref.path, c.config) ==> c.usable
    case Fields => true
    case SingleField(key, fileName) =>
      var path := if ref.append then ref.path else TrimSlash(ref.path) + "/" + if fileName == "" then key else fileName;
      ShouldEncrypt(path, c.config) ==> c.usable
    case _ => false
  }

  // A resource with no more data than the reference asks for.
  function Sample(ref: ResourceRef): Reading {
    match ref.strategy
    case SingleField(key, _) => Fetched(Some(Object("", Some(map[key := ""]), map[])), [key], (p: Path) => 0)
    case _ => Fetched(Some(Object("", Some(map[]), map[])), [], (p: Path) => 0)
  }

  lemma CanReadIff(c: Crypto, ref: ResourceRef, f: Reading)
    ensures GcRefWritable(c, ref, f) ==> CanRead(c, ref)
    ensures CanRead(c, ref) ==> GcRefWritable(c, ref, Sample(ref))
  {
    hide ShouldEncrypt;
    if GcRefWritable(c, ref, f) && !ref.strategy.Fields? {
      assert GcRefPuts(ref, f).value[0] in GcRefPuts(ref, f).value;
    }
  }

  predicate CanWrite(c: Crypto, file: FileSpec, apis: seq<RestApi>, held: seq<RestStatus>) {
    && (file.useRestData ==> CanFill(apis, held, file.source))
    && (ShouldEncrypt(file.path, c.config) ==> c.usable)
  }

  /** Can this spec be delivered by a reconcile that holds these entries? */
  predicate Deliverable(spec: Spec, held: seq<RestStatus>) {
    && (spec.apis != [] ==>
         FirstTripped(held).None? && forall i :: 0 <= i < |spec.apis| ==> Answerable(spec.apis[i]))
    && (forall i :: 0 <= i < |spec.job.files| ==> CanWrite(spec.job.crypto, spec.job.files[i], spec.apis, held))
    && (forall i :: 0 <= i < |spec.job.refs| ==> CanRead(spec.job.crypto, spec.job.refs[i]))
  }

  lemma WritableIff(spec: Spec, held: seq<RestStatus>, xs: seq<Exchange>, file: FileSpec)
    requires |xs| == |spec.apis| && Passes(spec, held, xs)
    ensures var entries := BuiltFrom(spec.apis, held, xs, Some(CALL_LIMIT));
            && (Writable(spec.job.crypto, file, entries) ==> CanWrite(spec.job.crypto, file, spec.apis, held))
            && (AllGood(xs) && CanWrite(spec.job.crypto, file, spec.apis, held) ==>
                 Writable(spec.job.crypto, file, entries))
  {
    hide CheckAll, Content, ShouldEncrypt, AllGood, Fills;
    if spec.apis == [] {
      ContentIff(file.source, held);
    } else {
      FilledIff(spec.apis, held, xs, file.source);
    }
  }

  // A push shows that the spec can be delivered.
  lemma PushedIsDeliverable(spec: Spec, copy: Status<string>, s: Status<string>, env: Env)
    requires |env.xs| == |spec.apis| && Reconcile(spec, copy, s, env).pushes != []
    ensures !Terminal(copy) && Deliverable(spec, Held(copy, s))
  {
    hide Reconcile, CheckAll, CanWrite, CanRead, Writable, GcRefWritable, BuiltFrom, Answerable;
    var held := Held(copy, s);
    PushesIff(spec, copy, s, env);
    if spec.apis != [] {
      PassesAnswerable(spec, held, env.xs);
    }
    forall i | 0 <= i < |spec.job.files| ensures CanWrite(spec.job.crypto, spec.job.files[i], spec.apis, held) {
      WritableIff(spec, held, env.xs, spec.job.files[i]);
    }
    forall i | 0 <= i < |spec.job.refs| ensures CanRead(spec.job.crypto, spec.job.refs[i]) {
      CanReadIff(spec.job.crypto, spec.job.refs[i], env.git.inputs(i));
    }
  }

  // An environment in which all goes well.
  ghost function Lucky(spec: Spec, now: Time): Env
    requires forall i :: 0 <= i < |spec.apis| ==> Answerable(spec.apis[i])
  {
    Env(now, true, Applied(now), GoodExchanges(spec.apis, now), None,
        Learned(None, (i: nat) => 0,
                (i: nat) => if i < |spec.job.refs| then Sample(spec.job.refs[i]) else NOTHING_READ, Success("0")),
        Applied(now))
  }

  // Then a spec that can be delivered is, whatever phase the server holds.
  lemma DeliverableIsPushed(spec: Spec, copy: Status<string>, s: Status<string>, now: Time)
    requires !Expired(spec, now) && !Terminal(copy) && Deliverable(spec, Held(copy, s))
    ensures |Lucky(spec, now).xs| == |spec.apis| && Reconcile(spec, copy, s, Lucky(spec, now)).pushes != []
  {
    hide Reconcile, CheckAll, CanWrite, CanRead, Writable, GcRefWritable, Answerable, GoodExchanges, Expired;
    var held, env := Held(copy, s), Lucky(spec, now);
    if spec.apis != [] {
      GoodPasses(spec, held, now);
    }
    var entries := Entries(spec, copy, s, env);
    forall i | 0 <= i < |spec.job.files| ensures Writable(spec.job.crypto, spec.job.files[i], entries) {
      WritableIff(spec, held, env.xs, spec.job.files[i]);
    }
    forall i | 0 <= i < |spec.job.refs| ensures GcRefWritable(spec.job.crypto, spec.job.refs[i], env.git.inputs(i)) {
      CanReadIff(spec.job.crypto, spec.job.refs[i], NOTHING_READ);
    }
    PushesIff(spec, copy, s, env);
  }

  ghost predicate NeverPushes(spec: Spec, copy: Status<string>, s: Status<string>, now: Time) {
    forall env: Env :: |env.xs| == |spec.apis| && env.now == now ==> Reconcile(spec, copy, s, env).pushes == []
  }

  /** When an outdated copy is harmless. As long as the resource is in time, no environment makes a
      reconcile of the copy push, whatever the server holds, exactly when the copy is terminal itself or
      the spec cannot be delivered with the entries held: a breaker tripped, an API that accepts no code, a
      file without content or recipients, a reference that yields nothing. */
  lemma HarmlessIff(spec: Spec, copy: Status<string>, s: Status<string>, now: Time)
    requires !Expired(spec, now)
    ensures NeverPushes(spec, copy, s, now) <==> Terminal(copy) || !Deliverable(spec, Held(copy, s))
  {
    hide Reconcile, Deliverable, Terminal, Expired, Lucky;
    if !Terminal(copy) && Deliverable(spec, Held(copy, s)) {
      DeliverableIsAnswerable(spec, Held(copy, s));
      DeliverableIsPushed(spec, copy, s, now);
      LuckyNow(spec, now);
    }
    forall env: Env | |env.xs| == |spec.apis| && Reconcile(spec, copy, s, env).pushes != []
      ensures !Terminal(copy) && Deliverable(spec, Held(copy, s))
    {
      PushedIsDeliverable(spec, copy, s, env);
    }
  }

  lemma DeliverableIsAnswerable(spec: Spec, held: seq<RestStatus>)
    requires Deliverable(spec, held)
    ensures forall i :: 0 <= i < |spec.apis| ==> Answerable(spec.apis[i])
  {
  }

  lemma LuckyNow(spec: Spec, now: Time)
    requires forall i :: 0 <= i < |spec.apis| ==> Answerable(spec.apis[i])
    ensures var env := Lucky(spec, now);
            env.now == now && env.running.Applied? && env.final.Applied? && |env.xs| == |spec.apis|
  {
  }

  /** So the assumption that lives are made of current copies is needed. A GitCommit that is Committed, and
      whose spec can be delivered with the entries it holds, is pushed once more by a reconcile that starts
      from the copy of its creation, although no write is lost: the Running write is applied to whatever
      the server holds. */
  lemma OutdatedCopyPushesAgain(spec: Spec, s: Status<string>, now: Time) returns (env: Env)
    requires Terminal(s) && !Expired(spec, now) && Deliverable(spec, s.restStatuses)
    ensures env.now == now && |env.xs| == |spec.apis| && env.running.Applied? && env.final.Applied?
    ensures |Reconcile(spec, CREATED, s, env).pushes| == 1 && Reconcile(spec, s, s, env).pushes == []
  {
    hide Reconcile, Deliverable, Expired, Lucky;
    DeliverableIsAnswerable(spec, s.restStatuses);
    env := Lucky(spec, now);
    LuckyNow(spec, now);
    DeliverableIsPushed(spec, CREATED, s, now);
    PushesIff(spec, CREATED, s, env);
    TerminalAbsorbs(spec, s, env);
  }
}
