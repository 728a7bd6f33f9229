/** The API types shared by GitCommit and PullRequest.

    The two kinds differ only in what a successful execution yields, so that is the type
    parameter R: a commit SHA for a GitCommit, a number and a URL for a PullRequest. */
module Api {
  import opened Wrappers

  // Instants and durations, in nanoseconds.
  type Time = int

  const SECOND: Time := 1_000_000_000
  const MINUTE: Time := 60 * SECOND

  // Done is "Committed" for a GitCommit and "Created" for a PullRequest; Unset is the empty
  // phase of a resource that no controller has touched yet.
  datatype Phase = Unset | Pending | Running | Done | Failed

  datatype RestApi = RestApi(
    name: string,
    expectedCodes: seq<int>,
    maxStatusCode: int,
    parsing: bool)  // is ResponseParsing configured?

  datatype RestStatus = RestStatus(
    name: string,
    lastCallTime: Option<Time>,
    lastStatusCode: int,
    lastResponse: string,
    lastError: string,
    callCount: nat,
    successCount: nat,
    conditionMet: bool,
    extractedData: string,
    formattedOutput: string)

  datatype Record<R> = Record(time: Time, result: R, phase: Phase, message: string)

  datatype Status<R> = Status(
    result: R,
    phase: Phase,
    message: string,
    lastSync: Option<Time>,
    restStatuses: seq<RestStatus>,
    lastScheduled: Option<Time>,
    nextScheduled: Option<Time>,
    history: seq<Record<R>>)

  datatype ApiError = NotFound | Conflict | Other

  // What Reconcile hands back to the work queue.
  datatype Outcome = Outcome(requeueAfter: Time, failed: bool)

  // The outcome of one status helper as the run properties see it.
  datatype Attempt = Lost | Applied(at: Time)

  function Max(a: int, b: int): int { if a < b then b else a }

  // RequeueAfter with the one-minute clamp, for a target instant and the current one.
  function ClampedWait(target: Time, now: Time): Time { Max(target - now, MINUTE) }

  // A duration is a 64-bit number of nanoseconds.
  function Int64(n: int): int {
    (n + 0x8000_0000_0000_0000) % 0x1_0000_0000_0000_0000 - 0x8000_0000_0000_0000
  }

  /** checkTTLExpired */
  predicate PastTtl(created: Time, ttlMinutes: Option<int>, now: Time) {
    ttlMinutes.Some? && now > created + Int64(ttlMinutes.value * MINUTE)
  }

  function Decimal(n: nat): string {
    if n < 10 then ["0123456789"[n]] else Decimal(n / 10) + ["0123456789"[n % 10]]
  }
}
