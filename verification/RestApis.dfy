/** REST API conditions: calling every configured API, keeping one status entry per API, and
    turning the entries into file content. HTTP and CEL are oracles: an Exchange is what came back.

    GitCommit passes a call limit (its circuit breaker), PullRequest has none. */
module RestApis {
  import opened Wrappers
  import opened Api
  import opened StatusServer

  const CALL_LIMIT: nat := 10

  datatype Parse = ParseFailed(message: string) | ConditionFalse | Extracted(data: string, output: string)

  datatype Response =
    | NotSent(message: string)  // the request could not be built or its token not found
    | NoAnswer(message: string)
    | Unreadable(code: nat, message: string)
    | Answer(code: nat, body: string, parse: Parse)

  datatype Exchange = Exchange(response: Response, at: Time)

  datatype Verdict = Met | NotMet | Broken(message: string)

  const UNCALLED := RestStatus("", None, 0, "", "", 0, 0, false, "", "")

  predicate Tripped(st: RestStatus) {
    st.callCount >= CALL_LIMIT
  }

  function FirstTripped(sts: seq<RestStatus>): Option<RestStatus> {
    if sts == [] then None else if Tripped(sts[0]) then Some(sts[0]) else FirstTripped(sts[1..])
  }

  // The loop of the circuit breaker.
  method FindTripped(sts: seq<RestStatus>) returns (st: Option<RestStatus>)
    ensures st == FirstTripped(sts)
    ensures st.Some? <==> exists i :: 0 <= i < |sts| && Tripped(sts[i])
  {
    for i := 0 to |sts|
      invariant FirstTripped(sts) == FirstTripped(sts[i..])
      invariant forall j :: 0 <= j < i ==> !Tripped(sts[j])
    {
      assert sts[i..][1..] == sts[i + 1..];
      if Tripped(sts[i]) {
        return Some(sts[i]);
      }
    }
    st := None;
  }

  lemma {:induction false} NoneTripped(sts: seq<RestStatus>, i: nat)
    requires FirstTripped(sts).None? && i < |sts|
    ensures sts[i].callCount < CALL_LIMIT
  {
    if i > 0 {
      NoneTripped(sts[1..], i - 1);
    }
  }

  lemma {:induction false} SomeTripped(sts: seq<RestStatus>)
    ensures FirstTripped(sts).Some? ==> exists i :: 0 <= i < |sts| && sts[i].callCount >= CALL_LIMIT
  {
    if sts != [] && !Tripped(sts[0]) {
      SomeTripped(sts[1..]);
      if i :| 0 <= i < |sts[1..]| && sts[1..][i].callCount >= CALL_LIMIT {
        assert sts[i + 1].callCount >= CALL_LIMIT;
      }
    }
  }

  function LimitMessage(st: RestStatus): string {
    "REST API '" + st.name + "' exceeded maximum retry limit (" + Decimal(st.callCount) + " calls)"
  }

  predicate OverLimit(st: RestStatus, limit: Option<nat>) {
    limit.Some? && st.callCount >= limit.value
  }

  // Documented as "responses >= maxStatusCode", the bound is inclusive in the code; so is the
  // default of 399, which applies whenever no expected codes are listed.
  predicate AcceptedCode(api: RestApi, code: nat) {
    if |api.expectedCodes| > 0 then code in api.expectedCodes
    else code <= if api.maxStatusCode > 0 then api.maxStatusCode else 399
  }

  /** What an API accepts. A list leaves nothing else; without one every code up to the bound is accepted
      and none above it, and the bound is 399 unless the spec gives another. */
  lemma AcceptedIff(api: RestApi, code: nat)
    ensures |api.expectedCodes| > 0 ==> (AcceptedCode(api, code) <==> code in api.expectedCodes)
    ensures |api.expectedCodes| == 0 && api.maxStatusCode > 0 ==>
              (AcceptedCode(api, code) <==> code <= api.maxStatusCode)
    ensures |api.expectedCodes| == 0 && api.maxStatusCode <= 0 ==> (AcceptedCode(api, code) <==> code < 400)
  {
  }

  function Shortened(body: string): string {
    if |body| > 1024 then body[..1024] + "... (truncated)" else body
  }

  /** checkSingleRestAPICondition: the new status entry and the verdict. */
  function CheckOne(api: RestApi, st: RestStatus, x: Exchange, limit: Option<nat>): (RestStatus, Verdict) {
    var named := st.(name := api.name);
    var called := named.(lastCallTime := Some(x.at), callCount := st.callCount + 1);
    if OverLimit(st, limit) then
      (named.(lastError := "Circuit breaker activated: maximum retries (" + Decimal(limit.value) + ") exceeded"),
       NotMet)
    else
      match x.response
      case NotSent(m) => (named, Broken(m))
      case NoAnswer(m) => (called.(lastError := m), Broken("HTTP request failed: " + m))
      case Unreadable(code, m) =>
        (called.(lastStatusCode := code, lastError := "failed to read response: " + m),
         Broken("failed to read response body: " + m))
      case Answer(code, body, parse) =>
        var answered := called.(lastStatusCode := code, lastResponse := Shortened(body));
        if !AcceptedCode(api, code) then
          (answered.(conditionMet := false, lastError := "HTTP status condition not met: " + Decimal(code)), NotMet)
        else if !api.parsing then
          (answered.(conditionMet := true, lastError := "", successCount := st.successCount + 1), Met)
        else
          match parse
          case ParseFailed(m) =>
            (answered.(lastError := "JSON processing failed: " + m), Broken("JSON processing failed: " + m))
          case ConditionFalse => (answered.(conditionMet := false, lastError := ""), NotMet)
          case Extracted(data, output) =>
            (answered.(conditionMet := true, lastError := "", successCount := st.successCount + 1,
                       extractedData := data, formattedOutput := output), Met)
  }

  // A status list of the wrong length, such as the empty one, starts over.
  function Aligned(apis: seq<RestApi>, sts: seq<RestStatus>): (r: seq<RestStatus>)
    ensures |r| == |apis|
  {
    if |sts| == |apis| then sts else seq(|apis|, _ => UNCALLED)
  }

  // The first n APIs in order, stopping at the first error.
  function CheckUpTo(apis: seq<RestApi>, sts: seq<RestStatus>, xs: seq<Exchange>, n: nat, limit: Option<nat>)
    : (r: (seq<RestStatus>, Verdict))
    requires n <= |apis| == |sts| && n <= |xs|
    ensures |r.0| == |sts|
  {
    if n == 0 then (sts, Met)
    else
      var (done, verdict) := CheckUpTo(apis, sts, xs, n - 1, limit);
      if verdict.Broken? then (done, verdict)
      else
        var (st, v) := CheckOne(apis[n - 1], sts[n - 1], xs[n - 1], limit);
        (done[n - 1 := st], if v.Met? then verdict else v)
  }

  function CheckAll(apis: seq<RestApi>, sts: seq<RestStatus>, xs: seq<Exchange>, limit: Option<nat>)
    : (r: (seq<RestStatus>, Verdict))
    requires |xs| == |apis|
    ensures |r.0| == |apis|
  {
    CheckUpTo(apis, Aligned(apis, sts), xs, |apis|, limit)
  }

  method Accepts(api: RestApi, code: nat) returns (met: bool)
    ensures met == AcceptedCode(api, code)
  {
    met := false;
    if |api.expectedCodes| > 0 {
      for i := 0 to |api.expectedCodes|
        invariant !met && code !in api.expectedCodes[..i]
      {
        if code == api.expectedCodes[i] {
          met := true;
          break;
        }
      }
    } else {
      var max := 399;
      if api.maxStatusCode > 0 {
        max := api.maxStatusCode;
      }
      met := code <= max;
    }
  }

  /** checkSingleRestAPICondition, field by field. */
  method CheckSingle(api: RestApi, st: RestStatus, x: Exchange, limit: Option<nat>)
    returns (status: RestStatus, verdict: Verdict)
    ensures (status, verdict) == CheckOne(api, st, x, limit)
  {
    status := st.(name := api.name);
    if OverLimit(status, limit) {
      status := status.(lastError :=
        "Circuit breaker activated: maximum retries (" + Decimal(limit.value) + ") exceeded");
      return status, NotMet;
    }
    if x.response.NotSent? {
      return status, Broken(x.response.message);
    }
    status := status.(lastCallTime := Some(x.at));
    status := status.(callCount := status.callCount + 1);
    if x.response.NoAnswer? {
      status := status.(lastError := x.response.message);
      return status, Broken("HTTP request failed: " + x.response.message);
    }
    status := status.(lastStatusCode := x.response.code);
    if x.response.Unreadable? {
      status := status.(lastError := "failed to read response: " + x.response.message);
      return status, Broken("failed to read response body: " + x.response.message);
    }
    status := status.(lastResponse := Shortened(x.response.body));
    var accepted := Accepts(api, x.response.code);
    if !accepted {
      status := status.(conditionMet := false);
      status := status.(lastError := "HTTP status condition not met: " + Decimal(x.response.code));
      return status, NotMet;
    }
    var met := true;
    if api.parsing {
      match x.response.parse {
        case ParseFailed(m) =>
          status := status.(lastError := "JSON processing failed: " + m);
          return status, Broken("JSON processing failed: " + m);
        case ConditionFalse => met := false;
        case Extracted(data, output) =>
          status := status.(extractedData := data);
          status := status.(formattedOutput := output);
      }
    }
    status := status.(conditionMet := met);
    status := status.(lastError := "");
    if met {
      status := status.(successCount := status.successCount + 1);
    }
    verdict := if met then Met else NotMet;
  }

  /** checkRestAPIConditions, updating the in-memory status entries one by one. */
  method CheckRestApis<R(0)>(server: Server<R>, res: Resource<R>, apis: seq<RestApi>, limit: Option<nat>)
    returns (verdict: Verdict, ghost xs: seq<Exchange>)
    requires server.Valid()
    modifies server`clock, res
    ensures server.Valid() && old(server.clock) <= server.clock
    ensures |xs| == |apis|
    ensures verdict == CheckAll(apis, old(res.status.restStatuses), xs, limit).1
    ensures res.status == old(res.status).(restStatuses := CheckAll(apis, old(res.status.restStatuses), xs, limit).0)
  {
    hide CheckOne;
    var sts := Aligned(apis, res.status.restStatuses);
    ghost var first := sts;
    res.status := res.status.(restStatuses := sts);
    verdict, xs := Met, [];
    for i := 0 to |apis|
      invariant server.Valid() && old(server.clock) <= server.clock
      invariant |xs| == i && !verdict.Broken? && |sts| == |apis|
      invariant forall j :: i <= j < |apis| ==> sts[j] == first[j]
      invariant (sts, verdict) == CheckUpTo(apis, first, xs, i, limit)
      invariant res.status == old(res.status).(restStatuses := sts)
    {
      var response: Response :| true;
      var now := server.Now();
      ghost var before := xs;
      xs := xs + [Exchange(response, now)];
      OnlyPrefixMatters(apis, first, before, xs, i, limit);
      var st, v := CheckSingle(apis[i], sts[i], Exchange(response, now), limit);
      sts := sts[i := st];
      res.status := res.status.(restStatuses := sts);
      if v.Broken? {
        xs := Padded(apis, first, xs, i + 1, limit, now);
        return v, xs;
      }
      if !v.Met? {
        verdict := NotMet;
      }
    }
  }

  // What comes after an error does not matter.
  lemma Padded(apis: seq<RestApi>, sts: seq<RestStatus>, xs: seq<Exchange>, n: nat, limit: Option<nat>, now: Time)
    returns (all: seq<Exchange>)
    requires n == |xs| <= |apis| == |sts| && CheckUpTo(apis, sts, xs, n, limit).1.Broken?
    ensures |all| == |apis| && CheckUpTo(apis, sts, all, |apis|, limit) == CheckUpTo(apis, sts, xs, n, limit)
  {
    all := xs + seq(|apis| - n, _ => Exchange(NotSent(""), now));
    OnlyPrefixMatters(apis, sts, xs, all, n, limit);
    BrokenStays(apis, sts, all, n, |apis|, limit);
  }

  lemma {:induction false} OnlyPrefixMatters(apis: seq<RestApi>, sts: seq<RestStatus>, xs: seq<Exchange>,
                                             ys: seq<Exchange>, n: nat, limit: Option<nat>)
    requires n <= |apis| == |sts| && n <= |xs| && xs <= ys
    ensures CheckUpTo(apis, sts, xs, n, limit) == CheckUpTo(apis, sts, ys, n, limit)
  {
    hide CheckOne;
    if n > 0 {
      OnlyPrefixMatters(apis, sts, xs, ys, n - 1, limit);
    }
  }

  lemma {:induction false} BrokenStays(apis: seq<RestApi>, sts: seq<RestStatus>, xs: seq<Exchange>, k: nat, n: nat,
                                       limit: Option<nat>)
    requires k <= n <= |apis| == |sts| && n <= |xs|
    requires CheckUpTo(apis, sts, xs, k, limit).1.Broken?
    ensures CheckUpTo(apis, sts, xs, n, limit) == CheckUpTo(apis, sts, xs, k, limit)
  {
    hide CheckOne;
    if k < n {
      BrokenStays(apis, sts, xs, k, n - 1, limit);
    }
  }

  // Did the check send a request to API i? It did if it got that far and nothing held it back.
  predicate WasCalled(apis: seq<RestApi>, sts: seq<RestStatus>, xs: seq<Exchange>, i: nat, limit: Option<nat>)
    requires i < |apis| == |sts| && i < |xs|
  {
    && !CheckUpTo(apis, sts, xs, i, limit).1.Broken?
    && !OverLimit(sts[i], limit)
    && !xs[i].response.NotSent?
  }

  lemma {:induction false} EntryAfter(apis: seq<RestApi>, sts: seq<RestStatus>, xs: seq<Exchange>, n: nat, i: nat,
                                      limit: Option<nat>)
    requires n <= |apis| == |sts| && n <= |xs| && i < |apis|
    ensures var (done, verdict) := CheckUpTo(apis, sts, xs, n, limit);
            && (i >= n ==> done[i] == sts[i])
            && (i < n && CheckUpTo(apis, sts, xs, i, limit).1.Broken? ==> done[i] == sts[i] && verdict.Broken?)
            && (i < n && !CheckUpTo(apis, sts, xs, i, limit).1.Broken? ==>
                 && done[i] == CheckOne(apis[i], sts[i], xs[i], limit).0
                 && (CheckOne(apis[i], sts[i], xs[i], limit).1.Broken? ==> verdict.Broken?)
                 && (!CheckOne(apis[i], sts[i], xs[i], limit).1.Met? ==> !verdict.Met?))
  {
    hide CheckOne;
    if n > 0 {
      EntryAfter(apis, sts, xs, n - 1, i, limit);
    }
  }

  /** What a call that got an answer leaves in the entry, whatever came of it: the time, the code, the
      first 1024 characters of the body, and one more call; the condition is met or not as the code and
      the expression say, and the data and output are those extracted, or the ones before. */
  lemma AnsweredEntry(api: RestApi, st: RestStatus, x: Exchange, limit: Option<nat>)
    requires x.response.Answer? && !OverLimit(st, limit)
    ensures var (entry, verdict) := CheckOne(api, st, x, limit);
            var body, parse := x.response.body, x.response.parse;
            && entry.name == api.name && entry.lastCallTime == Some(x.at)
            && entry.lastStatusCode == x.response.code && entry.callCount == st.callCount + 1
            && (|body| <= 1024 ==> entry.lastResponse == body)
            && (|body| > 1024 ==> entry.lastResponse == body[..1024] + "... (truncated)")
            && (verdict.Met? <==> AcceptedCode(api, x.response.code) && (api.parsing ==> parse.Extracted?))
            && (verdict.Broken? <==> AcceptedCode(api, x.response.code) && api.parsing && parse.ParseFailed?)
            && (!verdict.Broken? ==> (entry.conditionMet <==> verdict.Met?))
            && (entry.lastError == "" <==> AcceptedCode(api, x.response.code) && !verdict.Broken?)
            && entry.successCount == st.successCount + (if verdict.Met? then 1 else 0)
            && (if verdict.Met? && api.parsing then
                  entry.extractedData == parse.data && entry.formattedOutput == parse.output
                else
                  entry.extractedData == st.extractedData && entry.formattedOutput == st.formattedOutput)
  {
  }

  /** What a call leaves that got no answer in full: the attempt is counted and timed once a request was sent,
      the code is that of an answer that could not be read, and nothing else is known. */
  lemma UnansweredEntry(api: RestApi, st: RestStatus, x: Exchange, limit: Option<nat>)
    requires !x.response.Answer? && !OverLimit(st, limit)
    ensures var (entry, verdict) := CheckOne(api, st, x, limit);
            var sent := !x.response.NotSent?;
            && verdict.Broken? && entry.name == api.name
            && entry.callCount == st.callCount + (if sent then 1 else 0)
            && entry.lastCallTime == (if sent then Some(x.at) else st.lastCallTime)
            && entry.lastStatusCode == (if x.response.Unreadable? then x.response.code else st.lastStatusCode)
            && entry == st.(name := entry.name, callCount := entry.callCount, lastCallTime := entry.lastCallTime,
                            lastStatusCode := entry.lastStatusCode, lastError := entry.lastError)
            && (!sent ==> entry.lastError == st.lastError)
  {
  }

  /** An API at its limit is not called: its entry takes the name and says so. */
  lemma HeldBackEntry(api: RestApi, st: RestStatus, x: Exchange, limit: Option<nat>)
    requires OverLimit(st, limit)
    ensures var (entry, verdict) := CheckOne(api, st, x, limit);
            verdict.NotMet? && entry == st.(name := api.name, lastError := entry.lastError) && entry.lastError != ""
  {
  }

  /* The verdict, from the answers alone. */

  // A call that cannot be judged: none came back in full, or one did with an accepted code and data that
  // the response processing cannot handle.
  predicate Breaks(api: RestApi, x: Exchange) {
    match x.response
    case Answer(code, _, parse) => AcceptedCode(api, code) && api.parsing && parse.ParseFailed?
    case _ => true
  }

  // An accepted code, and a condition that holds if the response is processed.
  predicate Passes(api: RestApi, x: Exchange) {
    && x.response.Answer? && AcceptedCode(api, x.response.code)
    && (api.parsing ==> x.response.parse.Extracted?)
  }

  // Did a call below the limit break?
  ghost predicate AnyBreaks(apis: seq<RestApi>, sts: seq<RestStatus>, xs: seq<Exchange>, n: nat, limit: Option<nat>)
    requires n <= |apis| == |sts| && n <= |xs|
  {
    exists i :: 0 <= i < n && !OverLimit(sts[i], limit) && Breaks(apis[i], xs[i])
  }

  ghost predicate AllPass(apis: seq<RestApi>, sts: seq<RestStatus>, xs: seq<Exchange>, n: nat, limit: Option<nat>)
    requires n <= |apis| == |sts| && n <= |xs|
  {
    forall i :: 0 <= i < n ==> !OverLimit(sts[i], limit) && Passes(apis[i], xs[i])
  }

  lemma OneVerdict(api: RestApi, st: RestStatus, x: Exchange, limit: Option<nat>)
    ensures var v := CheckOne(api, st, x, limit).1;
            && (v.Broken? <==> !OverLimit(st, limit) && Breaks(api, x))
            && (v.Met? <==> !OverLimit(st, limit) && Passes(api, x))
  {
  }

  lemma {:induction false} VerdictUpTo(apis: seq<RestApi>, sts: seq<RestStatus>, xs: seq<Exchange>, n: nat,
                                       limit: Option<nat>)
    requires n <= |apis| == |sts| && n <= |xs|
    ensures var v := CheckUpTo(apis, sts, xs, n, limit).1;
            && (v.Broken? <==> AnyBreaks(apis, sts, xs, n, limit))
            && (v.Met? <==> AllPass(apis, sts, xs, n, limit))
  {
    hide CheckOne, Breaks, Passes, OverLimit;
    if n > 0 {
      VerdictUpTo(apis, sts, xs, n - 1, limit);
      OneVerdict(apis[n - 1], sts[n - 1], xs[n - 1], limit);
    }
  }

  /** The verdict of a check, from what came back alone: an error exactly when some call broke, met exactly
      when every call passed, and not met otherwise. An API at its limit neither breaks nor passes. */
  lemma VerdictIff(apis: seq<RestApi>, sts: seq<RestStatus>, xs: seq<Exchange>, limit: Option<nat>)
    requires |apis| == |xs|
    ensures var v, held := CheckAll(apis, sts, xs, limit).1, Aligned(apis, sts);
            && (v.Broken? <==> AnyBreaks(apis, held, xs, |apis|, limit))
            && (v.Met? <==> AllPass(apis, held, xs, |apis|, limit))
            && (v.NotMet? <==> !AnyBreaks(apis, held, xs, |apis|, limit) && !AllPass(apis, held, xs, |apis|, limit))
  {
    hide AnyBreaks, AllPass;
    VerdictUpTo(apis, Aligned(apis, sts), xs, |apis|, limit);
  }

  // Does the circuit breaker forbid the check?
  ghost predicate Halted(apis: seq<RestApi>, sts: seq<RestStatus>) {
    apis != [] && exists i :: 0 <= i < |sts| && sts[i].callCount >= 10
  }

  lemma HaltedIff(apis: seq<RestApi>, sts: seq<RestStatus>)
    ensures Halted(apis, sts) <==> apis != [] && FirstTripped(sts).Some?
  {
    SomeTripped(sts);
    if FirstTripped(sts).None? {
      forall i | 0 <= i < |sts| ensures sts[i].callCount < 10 {
        NoneTripped(sts, i);
      }
    }
  }

  // What one call does to the count and to the output.
  lemma OneCall(api: RestApi, st: RestStatus, x: Exchange, limit: Option<nat>)
    ensures var entry := CheckOne(api, st, x, limit).0;
            && entry.callCount == st.callCount + (if OverLimit(st, limit) || x.response.NotSent? then 0 else 1)
            && (!api.parsing ==> entry.formattedOutput == st.formattedOutput)
  {
  }

  /** The stored call count of an API grows by one exactly when the check called it. */
  lemma CallCountsCalls(apis: seq<RestApi>, sts: seq<RestStatus>, xs: seq<Exchange>, i: nat, limit: Option<nat>)
    requires i < |apis| == |sts| == |xs|
    ensures CheckAll(apis, sts, xs, limit).0[i].callCount
            == sts[i].callCount + if WasCalled(apis, sts, xs, i, limit) then 1 else 0
  {
    hide CheckOne;
    EntryAfter(apis, sts, xs, |apis|, i, limit);
    OneCall(apis[i], sts[i], xs[i], limit);
  }

  /** A check that neither breaks nor meets the limit has called every API. */
  lemma NoErrorCallsAll(apis: seq<RestApi>, sts: seq<RestStatus>, xs: seq<Exchange>, i: nat, limit: Option<nat>)
    requires i < |apis| == |sts| == |xs|
    requires !CheckAll(apis, sts, xs, limit).1.Broken? && !OverLimit(sts[i], limit)
    ensures WasCalled(apis, sts, xs, i, limit)
  {
    EntryAfter(apis, sts, xs, |apis|, i, limit);
  }

  /** Gating. When all conditions are met, every API was called in this very check, gave an
      accepted answer, and its entry shows the call; an API with response parsing carries the
      output of this call, one without keeps whatever output it had. */
  lemma MetIsFresh(apis: seq<RestApi>, sts: seq<RestStatus>, xs: seq<Exchange>, i: nat, limit: Option<nat>)
    requires i < |apis| == |xs|
    requires CheckAll(apis, sts, xs, limit).1.Met?
    ensures var entry := CheckAll(apis, sts, xs, limit).0[i];
            && WasCalled(apis, Aligned(apis, sts), xs, i, limit)
            && xs[i].response.Answer? && AcceptedCode(apis[i], xs[i].response.code)
            && entry.name == apis[i].name && entry.conditionMet && entry.lastCallTime == Some(xs[i].at)
            && if apis[i].parsing
               then xs[i].response.parse.Extracted? && entry.formattedOutput == xs[i].response.parse.output
               else entry.formattedOutput == Aligned(apis, sts)[i].formattedOutput
  {
    EntryAfter(apis, Aligned(apis, sts), xs, |apis|, i, limit);
  }

  // Every API was called in this check, gave an accepted answer and, if its response is parsed, met its
  // condition.
  ghost predicate AllMet(apis: seq<RestApi>, sts: seq<RestStatus>, xs: seq<Exchange>, limit: Option<nat>)
    requires |apis| == |xs|
  {
    forall i :: 0 <= i < |apis| ==>
      && WasCalled(apis, Aligned(apis, sts), xs, i, limit)
      && xs[i].response.Answer? && AcceptedCode(apis[i], xs[i].response.code)
      && (apis[i].parsing ==> xs[i].response.parse.Extracted?)
  }

  lemma MetIsAllMet(apis: seq<RestApi>, sts: seq<RestStatus>, xs: seq<Exchange>, limit: Option<nat>)
    requires |apis| == |xs| && CheckAll(apis, sts, xs, limit).1.Met?
    ensures AllMet(apis, sts, xs, limit)
  {
    hide CheckAll, CheckOne, CheckUpTo;
    forall i | 0 <= i < |apis|
      ensures WasCalled(apis, Aligned(apis, sts), xs, i, limit)
      ensures xs[i].response.Answer? && AcceptedCode(apis[i], xs[i].response.code)
      ensures apis[i].parsing ==> xs[i].response.parse.Extracted?
    {
      MetIsFresh(apis, sts, xs, i, limit);
    }
  }

  // The entries that files are built from once the check, if there is one, has passed.
  function BuiltFrom(apis: seq<RestApi>, sts: seq<RestStatus>, xs: seq<Exchange>, limit: Option<nat>): seq<RestStatus>
    requires |xs| == |apis|
  {
    if apis == [] then sts else CheckAll(apis, sts, xs, limit).0
  }

  /* File content from REST data. */

  datatype FileSource = FileSource(restName: string, delimiter: string)

  function Join(parts: seq<string>, delimiter: string): string {
    if parts == [] then "" else if |parts| == 1 then parts[0]
    else parts[0] + delimiter + Join(parts[1..], delimiter)
  }

  /** A list of one is itself. */
  lemma JoinOne(part: string, delimiter: string)
    ensures Join([part], delimiter) == part
  {
  }

  /** Two lists joined are the first joined, the delimiter, and the second joined: the order is kept and
      the delimiter stands between neighbours and nowhere else. */
  lemma {:induction false} JoinConcat(a: seq<string>, b: seq<string>, delimiter: string)
    requires a != [] && b != []
    ensures Join(a + b, delimiter) == Join(a, delimiter) + delimiter + Join(b, delimiter)
  {
    if |a| == 1 {
      assert (a + b)[1..] == b;
    } else {
      assert (a + b)[1..] == a[1..] + b;
      JoinConcat(a[1..], b, delimiter);
    }
  }

  /** Around any output but the first and the last there is a delimiter on either side. */
  lemma JoinAround(before: seq<string>, part: string, after: seq<string>, delimiter: string)
    requires before != [] && after != []
    ensures Join(before + [part] + after, delimiter)
            == Join(before, delimiter) + delimiter + part + delimiter + Join(after, delimiter)
  {
    hide Join;
    JoinOne(part, delimiter);
    JoinConcat(before, [part], delimiter);
    JoinConcat(before + [part], after, delimiter);
  }

  function Delimiter(file: FileSource): string {
    if file.delimiter == "" then "\n" else file.delimiter
  }

  // The nonempty outputs of the entries whose condition is met, in order.
  function Outputs(sts: seq<RestStatus>): seq<string> {
    if sts == [] then []
    else
      var init, st := sts[..|sts| - 1], sts[|sts| - 1];
      Outputs(init) + if st.formattedOutput != "" && st.conditionMet then [st.formattedOutput] else []
  }

  // The first entry of that name that has an output; its condition is not looked at.
  function Named(sts: seq<RestStatus>, name: string): seq<string> {
    if sts == [] then []
    else if sts[0].name == name && sts[0].formattedOutput != "" then [sts[0].formattedOutput]
    else Named(sts[1..], name)
  }

  /** Outputs come in the order of the entries, each entry adding its own if that is not empty and its
      condition is met. */
  lemma {:induction false} OutputsConcat(a: seq<RestStatus>, b: seq<RestStatus>)
    ensures Outputs(a + b) == Outputs(a) + Outputs(b)
    ensures |b| == 1 ==>
              Outputs(b) == if b[0].conditionMet && b[0].formattedOutput != "" then [b[0].formattedOutput] else []
  {
    if b == [] {
      assert a + b == a;
    } else {
      assert (a + b)[..|a + b| - 1] == a + b[..|b| - 1];
      OutputsConcat(a, b[..|b| - 1]);
    }
  }

  /** A named output is that of the first entry of the name that has one; without any there is none. */
  lemma {:induction false} NamedAt(sts: seq<RestStatus>, name: string, k: nat)
    requires k <= |sts| && forall j :: 0 <= j < k ==> sts[j].name != name || sts[j].formattedOutput == ""
    requires k < |sts| ==> sts[k].name == name && sts[k].formattedOutput != ""
    ensures Named(sts, name) == if k < |sts| then [sts[k].formattedOutput] else []
  {
    if k > 0 {
      NamedAt(sts[1..], name, k - 1);
    }
  }

  // "" stands for the nil content on which the caller gives up.
  function Content(file: FileSource, sts: seq<RestStatus>): string {
    Join(if file.restName != "" then Named(sts, file.restName) else Outputs(sts), Delimiter(file))
  }

  method BuildFileContent(file: FileSource, sts: seq<RestStatus>) returns (content: string)
    ensures content == Content(file, sts)
  {
    if |sts| == 0 {
      return "";
    }
    var results := [];
    if file.restName != "" {
      for i := 0 to |sts|
        invariant results == [] && Named(sts, file.restName) == Named(sts[i..], file.restName)
      {
        assert sts[i..][1..] == sts[i + 1..];
        if sts[i].name == file.restName && sts[i].formattedOutput != "" {
          results := results + [sts[i].formattedOutput];
          break;
        }
      }
    } else {
      for i := 0 to |sts|
        invariant results == Outputs(sts[..i])
      {
        assert sts[..i + 1][..i] == sts[..i];
        if sts[i].formattedOutput != "" && sts[i].conditionMet {
          results := results + [sts[i].formattedOutput];
        }
      }
      assert sts[..|sts|] == sts;
    }
    if |results| == 0 {
      return "";
    }
    var delimiter := file.delimiter;
    if delimiter == "" {
      delimiter := "\n";
    }
    content := Join(results, delimiter);
  }

  // What the calls of one check produced: the nonempty outputs, in the order of the spec.
  function Produced(apis: seq<RestApi>, xs: seq<Exchange>): seq<string>
    requires |apis| == |xs|
  {
    if apis == [] then []
    else
      var n := |apis| - 1;
      Produced(apis[..n], xs[..n]) +
      if apis[n].parsing && xs[n].response.Answer? && xs[n].response.parse.Extracted?
         && xs[n].response.parse.output != ""
      then [xs[n].response.parse.output] else []
  }

  // One API adds the output of its parsed answer if that is not empty.
  lemma ProducedOne(api: RestApi, x: Exchange)
    ensures api.parsing && x.response.Answer? && x.response.parse.Extracted? && x.response.parse.output != "" ==>
              Produced([api], [x]) == [x.response.parse.output]
    ensures Produced([api], [x]) != [] ==> api.parsing && x.response.Answer? && x.response.parse.Extracted?
  {
    assert [api][..0] == [] && [x][..0] == [];
    assert Produced([api][..0], [x][..0]) == [];
  }

  /** The outputs of a check come in the order of the spec. */
  lemma {:induction false} ProducedConcat(a: seq<RestApi>, b: seq<RestApi>, xa: seq<Exchange>, xb: seq<Exchange>)
    requires |a| == |xa| && |b| == |xb|
    ensures Produced(a + b, xa + xb) == Produced(a, xa) + Produced(b, xb)
  {
    if b == [] {
      assert a + b == a && xa + xb == xa;
    } else {
      var n := |b| - 1;
      assert (a + b)[..|a| + n] == a + b[..n] && (xa + xb)[..|a| + n] == xa + xb[..n];
      ProducedConcat(a, b[..n], xa, xb[..n]);
      assert |a + b| - 1 == |a| + n;
    }
  }

  // No API without response parsing has an output left from before (from a spec that did parse).
  predicate NoLeftover(apis: seq<RestApi>, sts: seq<RestStatus>) {
    |sts| == |apis| ==>
      forall i :: 0 <= i < |apis| && !apis[i].parsing ==> sts[i].formattedOutput == ""
  }

  // The number of such outputs among the first n APIs.
  function Leftovers(apis: seq<RestApi>, sts: seq<RestStatus>, n: nat): nat
    requires n <= |apis| == |sts|
  {
    if n == 0 then 0
    else Leftovers(apis, sts, n - 1) +
         if !apis[n - 1].parsing && sts[n - 1].formattedOutput != "" then 1 else 0
  }

  lemma {:induction false} OutputsUpTo(apis: seq<RestApi>, sts: seq<RestStatus>, xs: seq<Exchange>, n: nat,
                                       limit: Option<nat>)
    requires n <= |apis| == |xs|
    requires CheckAll(apis, sts, xs, limit).1.Met?
    ensures var entries, left := CheckAll(apis, sts, xs, limit).0, Leftovers(apis, Aligned(apis, sts), n);
            && |Outputs(entries[..n])| == |Produced(apis[..n], xs[..n])| + left
            && (left == 0 ==> Outputs(entries[..n]) == Produced(apis[..n], xs[..n]))
  {
    hide CheckAll, CheckOne, AcceptedCode;
    if n > 0 {
      var entries := CheckAll(apis, sts, xs, limit).0;
      OutputsUpTo(apis, sts, xs, n - 1, limit);
      MetIsFresh(apis, sts, xs, n - 1, limit);
      assert entries[..n][..n - 1] == entries[..n - 1];
      assert apis[..n][..n - 1] == apis[..n - 1] && xs[..n][..n - 1] == xs[..n - 1];
    }
  }

  lemma {:induction false} LeftoversZero(apis: seq<RestApi>, sts: seq<RestStatus>, n: nat)
    requires n <= |apis| == |sts|
    ensures Leftovers(apis, sts, n) == 0 <==>
            forall i :: 0 <= i < n && !apis[i].parsing ==> sts[i].formattedOutput == ""
  {
    if n > 0 {
      LeftoversZero(apis, sts, n - 1);
    }
  }

  /** Freshness. When the conditions are met, an all-APIs file joins exactly the outputs this check
      produced if and only if no API without parsing had an output left over. */
  lemma AllApisOutputsAreFresh(apis: seq<RestApi>, sts: seq<RestStatus>, xs: seq<Exchange>, limit: Option<nat>)
    requires |apis| == |xs|
    requires CheckAll(apis, sts, xs, limit).1.Met?
    ensures Outputs(CheckAll(apis, sts, xs, limit).0) == Produced(apis, xs) <==> NoLeftover(apis, sts)
  {
    var n := |apis|;
    OutputsUpTo(apis, sts, xs, n, limit);
    LeftoversZero(apis, Aligned(apis, sts), n);
    assert CheckAll(apis, sts, xs, limit).0[..n] == CheckAll(apis, sts, xs, limit).0;
    assert apis[..n] == apis && xs[..n] == xs;
  }

  // Without a leftover there is none after the check either, so a resource whose spec never
  // changes can rely on freshness for good.
  lemma NoLeftoverStays(apis: seq<RestApi>, sts: seq<RestStatus>, xs: seq<Exchange>, limit: Option<nat>)
    requires |apis| == |xs| && NoLeftover(apis, sts)
    ensures NoLeftover(apis, CheckAll(apis, sts, xs, limit).0)
  {
    hide CheckOne;
    forall i | 0 <= i < |apis| && !apis[i].parsing
      ensures CheckAll(apis, sts, xs, limit).0[i].formattedOutput == ""
    {
      OneCall(apis[i], Aligned(apis, sts)[i], xs[i], limit);
      EntryAfter(apis, Aligned(apis, sts), xs, |apis|, i, limit);
    }
  }
}
