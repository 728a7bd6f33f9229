# git-change-operator, verified

A Dafny model of the reconcilers of git-change-operator: the controllers that turn `GitCommit` and `PullRequest`
objects into commits and pull requests, and the one that keeps the operator's own objects in shape. A reconcile
reads an object, decides from its spec, its status and the clock, does something to the outside world that cannot be
taken back, and records what it did through bounded retry loops against a server that others write to as well. The
proofs are about what survives that: over whole runs, with lost writes, crashes and edits at any point.

## How the model is built

Bottom up:

* `Wrappers`, `Text`, `Api`: optional values, string functions, the status types, instants in nanoseconds.
* `Ticks`: a cron schedule as a set of ticks with a least one after every instant, and the timer (last and next
  scheduled time) that both scheduled controllers drive.
* `StatusServer`, `StatusHelpers`, `ConcurrentRecords`: the API server as one object's status is seen through it.
  Reads may be out of date, writes are guarded by the resource version, other clients may write between any two calls,
  and a ghost log keeps every accepted write. The helpers are the retry loops; what they add up to when several clients
  use them on one object is proved about the log.
* `RestApis`, `Worktree`, `ResourceRefs`, `FreshFiles`, `GitRemote`, `RepositoryUrl`, `Forge`: REST conditions and
  file content, the two worktree writers, resource references, what outputs become in a tree, commit and push, the URL
  parser, creating a pull request.
* `ScheduleGate`, `ScheduledRuns`: what the two scheduled controllers share, for one reconcile and for whole runs.
* `ScheduledGitCommit` and `GitCommitRuns`, `ScheduledPullRequest` and `PullRequestRuns`: the scheduled controllers.
* `UnscheduledGitCommit`, `UnscheduledRuns` and `OutdatedCopies`, `UnscheduledPullRequest` and `PullRequestLives`:
  one-shot objects.
* `OwnedObjects`, `OperatorReconciler`: the GitChangeOperator reconciler.

Each controller appears twice: as a method that works step by step on a server, a resource and a remote, and as a
function `Reconcile` of the stored status and of everything the reconcile learns from outside (`Env`). The method's
contract says that the two agree; the run theorems are about the function. What comes from outside, which is HTTP
answers, CEL results, git and GitHub, secrets, time, failures and lost writes, is chosen freely by the methods and
quantified over by the lemmas. A write is `Lost` in an `Env` only if the server answered some request with an error: the
handlers' contracts say so through a ghost count of such answers.

What the specification functions say is stated a second time without them: how an attempt ends, from what came back
alone (`EndsAs`, `ExecutionEnds`, `VerdictIff`, `HistoryTells`); what a tree holds, in the fields of the files and
references (`CommitHoldsLiteralFile`, `CommitHoldsReference`, `CommittedFileInOrder`); which branch moves
(`OnlyOwnBranchMoves`); what the operator leaves, in the fields of its spec (`EndsAsSpecified`).

Two conventions hold throughout. An API call that returns an error was not applied. A crash needs no case of its own:
stopping after some call leaves behind what it would if every later call failed.

## What turned out false

Each of these is stated with the exact condition, or with a run that shows it:

* The limit of ten REST calls is real for one-shot GitCommits only. A scheduled GitCommit never stores a call count
  (`GitCommitRuns.ScheduledCallsAreUnbounded`), and PullRequests have no limit at all
  (`PullRequestLives.CallsAreUnbounded`).
* A one-shot GitCommit found Running with its breaker tripped is stranded when the write of Failed is lost
  (`UnscheduledRuns.StrandedIff`): that reconcile leaves nothing to wake it, not even for its time to live.
* A one-shot GitCommit that is Committed is pushed again by a reconcile that starts from an outdated copy, unless the
  copy is terminal itself or its spec cannot be delivered (`OutdatedCopies.HarmlessIff`,
  `OutdatedCopies.OutdatedCopyPushesAgain`); a PullRequest is never created twice that way
  (`PullRequestLives.StepHasShape`).
* Records are lost to schedule updates made from an outdated copy of the history, and to nothing else
  (`ConcurrentRecords.NeverLostIff`).
* The back-off on a conflicting Running write (`controllers/gitcommit_controller.go:99-103`) is never taken:
  `updateStatus` reports exhausted retries, never a conflict (`StatusHelpers.UpdateStatus`).
* An output left by an earlier spec with response parsing is joined into an all-APIs file
  (`RestApis.AllApisOutputsAreFresh`); it cannot happen while the spec stays (`RestApis.NoLeftoverStays`).
* Append with encryption: GitCommit concatenates ciphertexts, PullRequest re-encrypts the plain path
  (`Worktree.EncryptedAppendAgreesIff`).
* The documented append mode of resource references does nothing in GitCommit but move a single field
  (`ResourceRefs.GcRefsOverwrite`).
* The order in which a data map is visited shows when a key and that key with the encryption extension are both there
  and disagree (`ResourceRefs.OrderIndependentIff`, `ResourceRefs.PrOrderIndependentIff`).
* `parseRepository` panics on a GitHub URL with fewer than four characters after the prefix, and cuts a name that
  itself ends in `.git` (`RepositoryUrl.PanicIff`, `RepositoryUrl.RoundTripIff`).
* `createPullRequest` fails with the branch already pushed when an accepted push is followed by a URL that does not
  parse or a refusal (`Forge.FailsAfterPushIff`, with a repository elsewhere as the instance in
  `Forge.NeverOpensElsewhere`), and opens a pull request without its files when the push was no fast-forward
  (`Forge.OpensWithoutPushIff`).
* Disabling metrics leaves the metrics Service (`OwnedObjects.MetricsServiceSurvives`); a Deployment without containers
  never runs the image (`OwnedObjects.RunsImageIff`); a wrong role reference is never corrected
  (`OwnedObjects.GrantsRoleIff`); a renamed Ingress or ServiceMonitor leaves the old one behind
  (`OwnedObjects.OtherNamesKept`).

The code is followed where its documentation says otherwise: no expected status codes means 399 and below rather than
a list of four; `maxStatusCode` is an inclusive bound; an unset replica count means 1 rather than unmanaged.

## Model

| member | source | states |
|---|---|---|
| Ticks.Next | controllers/gitcommit_controller.go:929-931 | the least tick strictly after an instant |
| Ticks.StoredNextIsFirstTick | controllers/gitcommit_controller.go:951-957 | waiting reconciles never move a next time an execution stored: it stays the first tick after that execution |
| Ticks.TickAccounting | controllers/gitcommit_controller.go:927-1067 | in every legal log, executions are at most one, plus the ticks since the first, plus those whose next time was not stored |
| Ticks.ExecutionConsumesTicks | controllers/gitcommit_controller.go:940-949 | an execution whose predecessor stored its next time waited for the first tick after it and owns the ticks since |
| StatusServer.Server.Get | controllers/gitcommit_controller.go:1077-1081 | a read may be of an older version; a copy with the current version is the current status |
| StatusServer.Server.Update | controllers/gitcommit_controller.go:1117-1125 | a status write is accepted only for the current version, and then it is exactly one write; every refusal is counted |
| StatusHelpers.UpdateStatus | controllers/gitcommit_controller.go:355-402 | under arbitrary interference: no error means one write, the phase change applied to the status it replaced; an error means none; at most 3 attempts; never a conflict |
| StatusHelpers.RecordExecution | controllers/gitcommit_controller.go:1071-1133 | an atomic prepend-and-truncate of the history the server held at that moment, or no write; at most 3 attempts, and all 3 before a conflict is reported |
| StatusHelpers.UpdateScheduleStatus | controllers/gitcommit_controller.go:1136-1183 | one write derived from the status it replaced, or none; at most 3 attempts, and all 3 before a conflict is reported |
| StatusHelpers.UpdateNextScheduledTime | controllers/gitcommit_controller.go:1186-1217 | one write that changes only the next time, losing no concurrent update, or none |
| StatusHelpers.PhaseUpdateKeepsIff | controllers/gitcommit_controller.go:367-384 | the phase update sets phase, message and time, takes a result and entries from its copy if there are any, and keeps the rest |
| StatusHelpers.ExecutionUpdateSets | controllers/gitcommit_controller.go:1083-1111 | the record heads the history and the others move back by one, the last out at the limit; the start comes from the copy, the next time only if given |
| StatusHelpers.ScheduleUpdateKeepsIff | controllers/gitcommit_controller.go:1151-1167 | the schedule update keeps what others stored exactly as far as the copy has nothing else to say |
| StatusHelpers.StaleCopyLosesRecord | controllers/gitcommit_controller.go:1164-1167 | a record stored between reading and writing such a copy is lost |
| ConcurrentRecords.HelpersHave | controllers/gitcommit_controller.go:1092-1102 | recordExecution prepends and truncates, updateStatus and updateNextScheduledTime keep the history, updateScheduleStatus puts back that of its copy |
| ConcurrentRecords.NeverLostIff | controllers/gitcommit_controller.go:1092-1167 | however the accepted writes of several clients interleave, no record is ever lost exactly when every schedule update comes from a copy whose history is current or empty |
| ConcurrentRecords.NoRecordIsLost | controllers/gitcommit_controller.go:1092-1167 | then the history is the newest part of all records made |
| RestApis.Accepts | controllers/gitcommit_controller.go:699-714 | a listed code, or with no list one up to the maximum, 399 by default |
| RestApis.AcceptedIff | controllers/gitcommit_controller.go:699-714 | a list leaves nothing else; without one, exactly the codes up to the bound are accepted, and the bound is 399 unless given |
| RestApis.FindTripped | controllers/gitcommit_controller.go:110-119 | the first entry at the limit, and none exactly when all are below it |
| RestApis.CheckSingle | controllers/gitcommit_controller.go:604-756 | the entry, changed field by field, and the verdict are those of the specification CheckOne |
| RestApis.AnsweredEntry | controllers/gitcommit_controller.go:665-756 | what an answer leaves in the entry: time, code, count, the first 1024 characters, met or not as code and condition say, the new data and output or the old |
| RestApis.UnansweredEntry | controllers/gitcommit_controller.go:634-683 | what a call without a full answer leaves: counted and timed once sent, the code if there was one, and an error |
| RestApis.HeldBackEntry | controllers/gitcommit_controller.go:607-616 | an API at the limit is not called and its entry says so |
| RestApis.CheckRestApis | controllers/gitcommit_controller.go:569-601 | the entries and verdict of calling every API in order up to the first error |
| RestApis.VerdictIff | controllers/gitcommit_controller.go:569-601 | an error exactly when some call broke, met exactly when every call passed, not met otherwise, from the answers alone |
| RestApis.CallCountsCalls | controllers/gitcommit_controller.go:665-667 | a stored call count grows by one exactly when the check sent a request |
| RestApis.NoErrorCallsAll | controllers/gitcommit_controller.go:584-600 | a check without an error has called every API below its limit |
| RestApis.MetIsFresh | controllers/gitcommit_controller.go:684-755 | all conditions met means every API was called in this check, answered acceptably, and carries this call's output |
| RestApis.BuildFileContent | controllers/gitcommit_controller.go:861-898 | the named output, or the nonempty outputs of met APIs in order, joined by the delimiter; what order and joining mean is in the next four rows |
| RestApis.NamedAt | controllers/gitcommit_controller.go:867-874 | a named output is that of the first entry of the name that has one |
| RestApis.OutputsConcat | controllers/gitcommit_controller.go:875-882 | outputs come in the order of the entries, each nonempty one of a met condition once |
| RestApis.JoinConcat | controllers/gitcommit_controller.go:889-897 | two lists joined are the first joined, the delimiter, the second joined |
| RestApis.JoinAround | controllers/gitcommit_controller.go:889-897 | an output between others has the delimiter on either side |
| RestApis.AllApisOutputsAreFresh | controllers/gitcommit_controller.go:861-898 | once conditions are met, the joined outputs are those this check produced if and only if nothing was left over |
| RestApis.ProducedConcat | controllers/gitcommit_controller.go:569-601 | what a check produced comes in the order of the spec |
| RestApis.ProducedOne | controllers/gitcommit_controller.go:724-740 | an API adds the nonempty output of its parsed answer, and nothing else |
| RestApis.NoLeftoverStays | controllers/gitcommit_controller.go:724-740 | without a leftover there is none after any check of the same spec |
| Worktree.TargetIsStable | pkg/encryption/age.go:107-122 | an encrypted target path is never encrypted again |
| Worktree.TargetIs | pkg/encryption/age.go:100-122 | when a file is encrypted and where it then goes, ".age" by default |
| Worktree.GcWriteFile | controllers/gitcommit_controller.go:232-281 | one file is written at its target, sealed and then appended, and what was written is staged; it fails exactly when data or recipients are missing; the content itself is in the FreshFiles rows |
| Worktree.GcWriteFiles | controllers/gitcommit_controller.go:232-281 | the loop is a fold over the files, all of it staged; it fails exactly when some file cannot be written |
| Worktree.PrWriteFile | controllers/pullrequest_controller.go:323-375 | one file is appended to the plain path and then sealed, and what was written is staged; the content itself is in the FreshFiles rows |
| Worktree.PrWriteFiles | controllers/pullrequest_controller.go:323-375 | the loop is a fold over the files, all of it staged; it fails exactly when some file cannot be written |
| Worktree.PlainFoldContent | controllers/gitcommit_controller.go:265-276 | without encryption a path holds its last overwrite, or what was cloned, followed by all later appends in order |
| Worktree.UnnamedPathsKept | controllers/gitcommit_controller.go:232-281 | paths that no file targets keep their cloned content, with either writer |
| Worktree.LastOverwriteStays | controllers/gitcommit_controller.go:265-276 | with either writer an overwrite that nothing later targets is what the path ends up with |
| Worktree.WritersAgree | controllers/pullrequest_controller.go:323-375 | both writers make the same tree up to decryption when encryption is off or every file overwrites |
| Worktree.EncryptedAppendAgreesIff | controllers/pullrequest_controller.go:346-361 | an encrypted append comes out alike exactly when nothing is at the target nor at the plain path |
| ResourceRefs.GcProcessResourceRef | controllers/gitcommit_controller.go:438-512 | the files of a reference by strategy, and every case in which there are none |
| ResourceRefs.GcYieldsIff | controllers/gitcommit_controller.go:438-512 | exactly when a reference yields files, and how many |
| ResourceRefs.GcRefPutsAre | controllers/gitcommit_controller.go:447-505 | path and content of each: the YAML at the path; each field at path, one slash and key; a single field under its file name, its key, or at the path itself |
| ResourceRefs.GcRefsOverwrite | controllers/gitcommit_controller.go:447-505 | these are overwrites whatever the write mode, which matters to single fields only |
| ResourceRefs.GcWriteRefFile | controllers/gitcommit_controller.go:290-331 | an overwriting file is put at its target; it fails exactly when it needs recipients that are missing |
| ResourceRefs.GcWriteRef | controllers/gitcommit_controller.go:290-331 | the loop over the files of a reference is the overwriting fold |
| ResourceRefs.GcWriteRefs | controllers/gitcommit_controller.go:283-332 | all references in order, all of it staged; it fails exactly when some reference yields no files or a file lacks recipients |
| ResourceRefs.GcReferenceStays | controllers/gitcommit_controller.go:283-332 | a file of a reference is what its target ends up with, over whatever was there, unless a later file or reference goes there |
| ResourceRefs.PrProcessResourceRef | controllers/pullrequest_controller.go:167-248 | the files of a reference by strategy, and every case in which there are none |
| ResourceRefs.PrYieldsIff | controllers/pullrequest_controller.go:167-248 | exactly when a reference yields files, and how many |
| ResourceRefs.PrRefPutsAre | controllers/pullrequest_controller.go:167-248 | path and content of each: base, base with ".yaml", base and key, or the file name in the directory of the base |
| ResourceRefs.PrRefsFollowMode | controllers/pullrequest_controller.go:391-397 | PullRequest honours the write mode of a reference |
| ResourceRefs.PrWriteRefs | controllers/pullrequest_controller.go:377-422 | all references in order, all of it staged; it fails exactly when some reference yields no files or a file lacks recipients |
| ResourceRefs.PrReferenceStays | controllers/pullrequest_controller.go:377-422 | a file of an overwriting reference is what its target ends up with unless a later file or reference goes there |
| ResourceRefs.OrderIndependentIff | controllers/gitcommit_controller.go:463-470 | the tree is the same for every iteration order exactly when keys that share a target agree on its content |
| ResourceRefs.SameTargetIff | controllers/gitcommit_controller.go:463-470 | the path built from a key is injective but for the extension: two keys share a target exactly when one is the other, encrypted, with the extension |
| ResourceRefs.DistinctTargetsIff | controllers/gitcommit_controller.go:309-316 | targets are pairwise distinct exactly when no encrypted key comes with its extended key |
| ResourceRefs.PrOrderIndependentIff | controllers/pullrequest_controller.go:384-421 | the PullRequest tree is the same for every order exactly when each extended key beside its encrypted key is empty (append) or holds the very ciphertext (overwrite) |
| ResourceRefs.PrFieldsOrderIndependent | controllers/pullrequest_controller.go:384-421 | with distinct targets the PullRequest tree is the same for every order, in both write modes |
| GitRemote.PerformGitCommit | controllers/gitcommit_controller.go:187-353 | it succeeds exactly when clone, files, references and delivery do; an error leaves the remote unchanged; success moves the branch the job names and no other, or the default one and no other for main, master and none, to the clone with all files and then all references staged |
| GitRemote.CommitHoldsLiteralFile | controllers/gitcommit_controller.go:232-281 | an overwriting file with literal content that nothing later targets is in the committed tree as in the spec, sealed if asked for |
| GitRemote.CommitHoldsReference | controllers/gitcommit_controller.go:283-332 | a file of a reference is in the committed tree, over whatever files wrote there, unless a later file or reference goes there |
| GitRemote.CommitAddsUp | controllers/gitcommit_controller.go:265-276 | without encryption a path holds the last overwrite of the spec, or the clone, followed by all later appends, in the committed tree |
| FreshFiles.LiteralFileStays | controllers/gitcommit_controller.go:244-276 | with either writer an overwriting literal file that nothing later targets ends up with its content, sealed if asked for |
| FreshFiles.LiteralAppendStays | controllers/pullrequest_controller.go:346-361 | what an appending literal file adds to what the files before left, sealed by itself or with it |
| FreshFiles.LiteralFilesAddUp | controllers/gitcommit_controller.go:265-276 | with either writer, unencrypted, the last overwrite or the clone followed by the later appends in order |
| FreshFiles.CommittedFileIsFresh | controllers/gitcommit_controller.go:236-242 | with either writer an all-APIs file ends up with exactly this check's outputs, joined, and sealed if asked for |
| FreshFiles.CommittedFileInOrder | controllers/gitcommit_controller.go:889-897 | spelled out: the outputs stand in the file in the order of the spec with the delimiter between, a newline by default |
| FreshFiles.CommittedNamedFileIsFresh | controllers/gitcommit_controller.go:867-874 | a file that names an API holds the output of this check's call to the first API of the name |
| RepositoryUrl.RoundTripIff | controllers/pullrequest_controller.go:482-500 | the URL of a repository parses back to owner and name, with the exact condition |
| RepositoryUrl.PanicIff | controllers/pullrequest_controller.go:487-491 | the slice is out of range exactly for fewer than four characters after the prefix |
| Forge.CreatePullRequest | controllers/pullrequest_controller.go:279-480 | how it ends, which branch it moves to which tree, and the pull request it opens are functions of what it learns; every head starts from the default branch |
| Forge.EndsAs | controllers/pullrequest_controller.go:279-480 | a pull request is opened, and is the one answered with, exactly when commit, push, URL and GitHub allow; it crashes exactly when the URL parser is reached and panics |
| Forge.HeadHoldsLiteralFile | controllers/pullrequest_controller.go:323-375 | an overwriting file with literal content that nothing later targets is in the head branch as in the spec, sealed if asked for |
| Forge.HeadHoldsReference | controllers/pullrequest_controller.go:377-422 | a file of an overwriting reference is in the head branch unless a later file or reference goes there |
| Forge.HeadAddsUp | controllers/pullrequest_controller.go:340-361 | without encryption a path holds the last overwrite of the spec, or the clone, followed by all later appends, in the head branch |
| Forge.FailsAfterPushIff | controllers/pullrequest_controller.go:436-477 | exactly when nothing is opened although the branch is pushed |
| Forge.OpensWithoutPushIff | controllers/pullrequest_controller.go:436-448 | exactly when a pull request is opened although the branch is not pushed |
| Forge.NeverOpensElsewhere | controllers/pullrequest_controller.go:454-457 | a repository elsewhere is pushed to and never opened; one whose name is too short crashes after the push |
| ScheduleGate.PassGate | controllers/gitcommit_controller.go:901-979 | suspension, bad schedules, waiting and starting: the stored status and requeue are those of Enter; a quiet reconcile sends no update; nothing is lost without an error answer |
| ScheduleGate.StartsIff | controllers/gitcommit_controller.go:904-979 | an execution starts exactly when not suspended, with a schedule that parses, never executed before or at or past the stored next time, and persisted |
| ScheduleGate.StopsAs | controllers/gitcommit_controller.go:904-966 | what else comes of a reconcile: Pending, Failed, an error that leaves everything, or a moved next time, with the delay of each |
| ScheduleGate.GateShape | controllers/gitcommit_controller.go:904-979 | a stopped reconcile moves Last and Next as the timer does; a started one has persisted Last; neither touches history, result or REST entries |
| ScheduleGate.Quiescent | controllers/gitcommit_controller.go:929-966 | while the stored next tick is to come a reconcile asks for no status update and waits |
| ScheduleGate.ScheduleEditSettles | controllers/gitcommit_controller.go:951-957 | after a schedule edit one waiting reconcile restores a fixed point |
| ScheduleGate.WakesWithinAMinute | controllers/gitcommit_controller.go:959-966 | a wake-up comes no earlier than the stored tick, at most a minute late, and starts an execution |
| ScheduledRuns.ExecutionsAreAccountedFor | controllers/gitcommit_controller.go:927-1067 | results are at most executions, executions at most one plus ticks plus those that left the next time unmoved, over whole runs |
| ScheduledRuns.MissedTicksCoalesce | controllers/gitcommit_controller.go:940-949 | an execution whose predecessor stored its next time comes only at or after the first tick since |
| ScheduledRuns.RunsAreConsistent | controllers/gitcommit_controller.go:1083-1128 | the stored history is the newest part of the reversed log of recorded executions, throughout every run |
| ScheduledRuns.StatusIsTruthful | controllers/gitcommit_controller.go:1029-1057 | the history is the latest records stored, as many as the limit allows, newest first; no entry or phase claims a result that does not exist; the head agrees with the status once recorded |
| ScheduledGitCommit.FinishWithoutCommit | controllers/gitcommit_controller.go:1001-1036 | one write stores the record and the next time together; its loss is ignored |
| ScheduledGitCommit.FinishWithCommit | controllers/gitcommit_controller.go:1042-1067 | the next time is stored first, then the record; losing either is an error after a minute |
| ScheduledGitCommit.RunDelivery | controllers/gitcommit_controller.go:1019-1067 | credentials, commit and the writes that tell of it; the remote is unchanged, or has the one commit with its tree |
| ScheduledGitCommit.ExecuteRunning | controllers/gitcommit_controller.go:981-1067 | breaker, conditions and delivery, on a started execution; the remote as above |
| ScheduledGitCommit.HandleScheduled | controllers/gitcommit_controller.go:901-1068 | the handler stores, pushes (tree included) and requeues what Reconcile says for what it learned; it sends at most 9 updates and none where Reconcile asks for none; nothing is lost without an error answer |
| ScheduledGitCommit.ExecutionEnds | controllers/gitcommit_controller.go:981-1067 | from what came back alone: an execution records and stores Failed exactly when breaker, check, credentials, clone, files, references, commit or push fail, Pending exactly when conditions are not met, and otherwise Committed with the one SHA pushed; its delay; and Running if the record is lost |
| ScheduledGitCommit.ReconcileIsShaped | controllers/gitcommit_controller.go:901-1068 | every reconcile is a step of a scheduled run: one result and one record at most, which agree; the next time stays unmoved exactly if the write of it was lost |
| GitCommitRuns.GitCommitRunsAreRuns | controllers/gitcommit_controller.go:901-1068 | every chronological sequence of reconciles is a scheduled run |
| GitCommitRuns.QuiescentUntilNextTick | controllers/gitcommit_controller.go:929-966 | after an execution that stored its next time, any number of reconciles before it change, push and record nothing and ask for no status update |
| GitCommitRuns.WakesAndExecutes | controllers/gitcommit_controller.go:940-1067 | woken as asked, at most a minute late, it executes, and if its writes are applied stores a later next time |
| GitCommitRuns.ExecutesAgainInTime | controllers/gitcommit_controller.go:1004-1067 | the same after an execution, whose delay may lack the clamp |
| GitCommitRuns.NeverStranded | controllers/gitcommit_controller.go:901-1068 | every reconcile leaves a wake-up, unless two executions start at the same instant |
| GitCommitRuns.UnrescheduledAreLost | controllers/gitcommit_controller.go:1001-1057 | the executions that did not move the next time are exactly those that lost the write of it |
| GitCommitRuns.CommitsAreAccountedFor | controllers/gitcommit_controller.go:927-1067 | pushes are at most executions, executions at most one, plus ticks, plus lost writes of the next time; without lost writes the ticks alone bound them |
| GitCommitRuns.HistoryTells | controllers/gitcommit_controller.go:981-1067 | over runs: each history entry has the phase its execution called for by what came back, newest first, ten by default |
| GitCommitRuns.BranchesMove | controllers/gitcommit_controller.go:187-353 | the branches over a run are what each reconcile's contract makes of them |
| GitCommitRuns.OnlyOwnBranchMoves | controllers/gitcommit_controller.go:207-230 | over runs: no branch but that of the job moves, each commit over the default tree; main, master and none stand for the default branch |
| GitCommitRuns.PushedOutputsAreFresh | controllers/gitcommit_controller.go:997-1029 | every commit of a run follows a check in the same reconcile that called every API and met every condition, CEL included, and uses its outputs alone |
| GitCommitRuns.CommittedFilesAreFresh | controllers/gitcommit_controller.go:236-242 | an all-APIs file in the tree of every commit of a run holds exactly the outputs of that reconcile |
| GitCommitRuns.ScheduledCallsAreUnbounded | controllers/gitcommit_controller.go:1093-1113 | the breaker does not bound scheduled calls: a run without lost writes calls an API any number of times |
| ScheduledPullRequest.FinishExecution | controllers/pullrequest_controller.go:1013-1029 | record first, next time second, both losses ignored |
| ScheduledPullRequest.RunCreation | controllers/pullrequest_controller.go:991-1015 | credentials and creation: what to record, and what happens to the hosted repository |
| ScheduledPullRequest.RunDelivery | controllers/pullrequest_controller.go:991-1029 | the same with the writes that tell of it; a crash is told to nobody |
| ScheduledPullRequest.ExecuteRunning | controllers/pullrequest_controller.go:965-1029 | conditions and delivery, on a started execution; branches and pull requests as learned |
| ScheduledPullRequest.HandleScheduled | controllers/pullrequest_controller.go:888-1030 | the handler stores, pushes (tree included), creates and requeues what Reconcile says for what it learned; it sends at most 9 updates and none where Reconcile asks for none; nothing is lost without an error answer |
| ScheduledPullRequest.ExecutionEnds | controllers/pullrequest_controller.go:965-1029 | from what came back alone: Failed exactly when check, credentials or creation fail, Pending exactly when conditions are not met, nothing after a panic, and otherwise Created with the one pull request; its delay |
| ScheduledPullRequest.ReconcileIsShaped | controllers/pullrequest_controller.go:888-1030 | every reconcile is a step of a scheduled run; the next time stays unmoved exactly if the write of it was lost or the URL parser crashed |
| PullRequestRuns.PullRequestRunsAreRuns | controllers/pullrequest_controller.go:888-1030 | every chronological sequence of reconciles is a scheduled run |
| PullRequestRuns.UnrescheduledAreLost | controllers/pullrequest_controller.go:972-1020 | the executions that did not move the next time are exactly those that lost the write of it or crashed |
| PullRequestRuns.PullsAreAccountedFor | controllers/pullrequest_controller.go:912-1029 | pull requests are at most executions, executions at most one, plus ticks, plus lost writes of the next time; without any the ticks alone bound them; the status names only real ones |
| PullRequestRuns.HistoryTells | controllers/pullrequest_controller.go:965-1029 | over runs: each history entry has the phase its execution called for by what came back, newest first, ten by default |
| PullRequestRuns.QuiescentUntilNextTick | controllers/pullrequest_controller.go:912-950 | as for GitCommit |
| PullRequestRuns.WakesAndExecutes | controllers/pullrequest_controller.go:924-1029 | as for GitCommit |
| PullRequestRuns.ExecutesAgainInTime | controllers/pullrequest_controller.go:971-1029 | as for GitCommit |
| PullRequestRuns.NeverStranded | controllers/pullrequest_controller.go:888-1030 | as for GitCommit |
| PullRequestRuns.CreatedFromFreshOutputs | controllers/pullrequest_controller.go:965-1002 | every creation of a run follows a check that called every API and met every condition, CEL included, and uses its outputs alone |
| PullRequestRuns.PushedFilesAreFresh | controllers/pullrequest_controller.go:327-333 | an all-APIs file in every head branch of a run holds exactly the outputs of that reconcile |
| UnscheduledGitCommit.WriteReport | controllers/gitcommit_controller.go:115-131 | a last write whose loss is ignored |
| UnscheduledGitCommit.RunDelivery | controllers/gitcommit_controller.go:137-157 | credentials, commit, and the write that tells of it; the remote is unchanged, or has the one commit with its tree |
| UnscheduledGitCommit.RunProcess | controllers/gitcommit_controller.go:108-157 | breaker, conditions and delivery; the remote as above |
| UnscheduledGitCommit.HandleUnscheduled | controllers/gitcommit_controller.go:43-158 | the handler stores, pushes (tree included), deletes and requeues what Reconcile says for what it learned, even for an outdated copy; nothing is lost without an error answer |
| UnscheduledRuns.StopsEarly | controllers/gitcommit_controller.go:70-106 | a reconcile that does not get as far as the breaker pushes nothing and changes nothing but by deletion, with the delay or error of each case |
| UnscheduledRuns.EndsAs | controllers/gitcommit_controller.go:108-157 | from what came back alone: Failed exactly when breaker, check, credentials, clone, files, references, commit or push fail; Pending, looked at again in two minutes, exactly when conditions are not met; otherwise Committed with the SHA of the one push |
| UnscheduledRuns.Waiting | controllers/gitcommit_controller.go:128-131 | while conditions are not met it is Pending after each of up to ten reconciles, nothing pushed, every API called once in each |
| UnscheduledRuns.WaitsThenCommits | controllers/gitcommit_controller.go:121-157 | after any number of waits below ten, the first reconcile that can deliver ends it Committed with exactly one push |
| UnscheduledRuns.GivesUpAfterTen | controllers/gitcommit_controller.go:108-118 | after ten waits the next reconcile ends it Failed with nothing pushed |
| UnscheduledRuns.ExpiredIff | controllers/gitcommit_controller.go:828-858 | never expired without a TTL; within the API's bounds, expired exactly when strictly past creation plus TTL; where the 64-bit product is exact |
| UnscheduledRuns.DeletedIff | controllers/gitcommit_controller.go:70-83 | deleted exactly when expired and Delete succeeds |
| UnscheduledRuns.StrandedIff | controllers/gitcommit_controller.go:108-118 | every reconcile leaves a wake-up, but for the one case spelled out |
| UnscheduledRuns.TerminalAbsorbs | controllers/gitcommit_controller.go:85-94 | Committed and Failed are absorbing until deletion |
| UnscheduledRuns.RankDecreases | controllers/gitcommit_controller.go:108-135 | a reconcile whose writes are applied finishes or brings the measure (eleven minus the calls) down |
| UnscheduledRuns.FinishesWithinEleven | controllers/gitcommit_controller.go:85-157 | eleven such reconciles end any status in Committed, Failed or deletion |
| UnscheduledRuns.LifeIsBounded | controllers/gitcommit_controller.go:43-158 | over a life: pushes at most one plus the unrecorded, each from a stored Running; calls of each API at most ten plus the uncounted; a Committed SHA was pushed |
| UnscheduledRuns.BranchesMove | controllers/gitcommit_controller.go:187-353 | the branches over a life are what each reconcile's contract makes of them |
| UnscheduledRuns.OnlyOwnBranchMoves | controllers/gitcommit_controller.go:207-230 | over lives: no branch but that of the job moves; main, master and none stand for the default branch |
| UnscheduledRuns.PushedOutputsAreFresh | controllers/gitcommit_controller.go:121-144 | every push of a life follows a check in the same reconcile that called every API and met every condition, CEL included, and uses its outputs alone |
| UnscheduledRuns.CommittedFilesAreFresh | controllers/gitcommit_controller.go:236-242 | an all-APIs file in the tree of every commit of a life holds exactly the outputs of that reconcile |
| OutdatedCopies.PushesIff | controllers/gitcommit_controller.go:70-154 | exactly when a reconcile of any copy pushes, whatever the server holds |
| OutdatedCopies.HarmlessIff | controllers/gitcommit_controller.go:70-154 | no environment makes a copy push exactly when it is terminal or the spec cannot be delivered with the entries held |
| OutdatedCopies.OutdatedCopyPushesAgain | controllers/gitcommit_controller.go:96-106 | a Committed object whose spec can be delivered is pushed again from the copy of its creation |
| UnscheduledPullRequest.UpdateStatus | controllers/pullrequest_controller.go:502-509 | one compare-and-swap with the version of the copy |
| UnscheduledPullRequest.RunProcess | controllers/pullrequest_controller.go:107-132 | the Running write, then creation and the write that tells of it; branches and pull requests as learned |
| UnscheduledPullRequest.HandleUnscheduled | controllers/pullrequest_controller.go:43-133 | the handler stores, pushes (tree included), creates, deletes and requeues what Reconcile says, even for an outdated copy; nothing is lost without an error answer |
| PullRequestLives.StopsEarly | controllers/pullrequest_controller.go:66-89 | an expired or terminal resource creates nothing and changes nothing but by deletion |
| PullRequestLives.EndsAs | controllers/pullrequest_controller.go:91-132 | from what came back alone, outdated copies included: Failed exactly when check, credentials or creation fail, Pending exactly when conditions are not met, Running after a panic, otherwise Created with the one pull request |
| PullRequestLives.Waiting | controllers/pullrequest_controller.go:100-105 | while conditions are not met it is Pending after any number of reconciles, with no pull request |
| PullRequestLives.WaitsThenCreates | controllers/pullrequest_controller.go:91-132 | after any number of waits the first reconcile that is granted its pull request ends it Created with exactly that one |
| PullRequestLives.StepHasShape | controllers/pullrequest_controller.go:79-112 | a reconcile of an outdated copy creates and stores nothing; Created and Failed are absorbing |
| PullRequestLives.NeverStranded | controllers/pullrequest_controller.go:66-132 | every reconcile leaves a wake-up |
| PullRequestLives.LifeIsBounded | controllers/pullrequest_controller.go:43-133 | over a life, outdated reads included: at most one pull request plus the unrecorded, and a Created status names one |
| PullRequestLives.CreatedFromFreshOutputs | controllers/pullrequest_controller.go:91-119 | every creation of a life follows a check in the same reconcile that called every API and met every condition, CEL included, and uses its outputs alone |
| PullRequestLives.PushedFilesAreFresh | controllers/pullrequest_controller.go:327-333 | an all-APIs file in every head branch of a life holds exactly the outputs of that reconcile |
| PullRequestLives.CallsAreUnbounded | controllers/pullrequest_controller.go:91-105 | a life without lost writes calls an API any number of times |
| OwnedObjects.BuildIngress | controllers/gitchangeoperator_controller.go:579-636 | the nested loops build one rule for each host with one path for each of its paths |
| OwnedObjects.SettledIff | controllers/gitchangeoperator_controller.go:253-268 | a move changes nothing exactly when what it is for is already so |
| OwnedObjects.StartingOverIsSafe | controllers/gitchangeoperator_controller.go:61-131 | a reconcile cut short anywhere followed by a successful one leaves what the latter alone would |
| OwnedObjects.OnlySuccessMatters | controllers/gitchangeoperator_controller.go:61-131 | the same for any number of reconciles cut short anywhere |
| OwnedObjects.Converges | controllers/gitchangeoperator_controller.go:61-131 | from any store everything wanted comes true; nothing changes exactly when it was; never twice |
| OwnedObjects.EndsAsSpecified | controllers/gitchangeoperator_controller.go:154-677 | in the fields of the spec: replicas, image, arguments, account, role, binding, metrics Service, monitor and Ingress are as described after a successful reconcile, defaults spelled out, and what is off is gone |
| OwnedObjects.MadeAsSpecified | controllers/gitchangeoperator_controller.go:154-269 | what is made where nothing was: one container, pull policy, account and owner of the operator; role and owner of the binding |
| OwnedObjects.RunsImageIff | controllers/gitchangeoperator_controller.go:253-268 | the wanted image runs if and only if the Deployment was absent or had a container |
| OwnedObjects.GrantsRoleIff | controllers/gitchangeoperator_controller.go:404-413 | the binding grants the role if and only if it was absent or did so before |
| OwnedObjects.OtherNamesKept | controllers/gitchangeoperator_controller.go:551-677 | an Ingress or ServiceMonitor under any but the current name is neither changed nor removed |
| OwnedObjects.MetricsServiceSurvives | controllers/gitchangeoperator_controller.go:462-476 | disabling metrics leaves the metrics Service as it was |
| OperatorReconciler.Cluster.ReconcileDeployment | controllers/gitchangeoperator_controller.go:154-269 | creates, or patches replicas, image and arguments of the first container; needs an image |
| OperatorReconciler.Cluster.ReconcileServiceAccount | controllers/gitchangeoperator_controller.go:282-309 | creates or replaces |
| OperatorReconciler.Cluster.ReconcileRole | controllers/gitchangeoperator_controller.go:311-372 | creates or sets the rules |
| OperatorReconciler.Cluster.ReconcileRoleBinding | controllers/gitchangeoperator_controller.go:374-414 | creates or sets the subjects |
| OperatorReconciler.Cluster.ReconcileMetricsService | controllers/gitchangeoperator_controller.go:416-460 | creates or sets type and ports |
| OperatorReconciler.Cluster.DeleteMetricsService | controllers/gitchangeoperator_controller.go:462-476 | deletes under the other name |
| OperatorReconciler.Cluster.ReconcileServiceMonitor | controllers/gitchangeoperator_controller.go:478-549 | creates or replaces |
| OperatorReconciler.Cluster.DeleteServiceMonitor | controllers/gitchangeoperator_controller.go:551-571 | deletes, absent or not |
| OperatorReconciler.Cluster.ReconcileIngress | controllers/gitchangeoperator_controller.go:573-657 | creates, or replaces spec, labels and annotations |
| OperatorReconciler.Cluster.DeleteIngress | controllers/gitchangeoperator_controller.go:659-677 | deletes, absent or not |
| OperatorReconciler.Cluster.ReconcileOwned | controllers/gitchangeoperator_controller.go:61-131 | the moves made are the plan up to the first failure |
| OperatorReconciler.Cluster.UpdateFinalizer | controllers/gitchangeoperator_controller.go:53-59 | accepted only for the version that was read; the last one removed removes a deleted object |
| OperatorReconciler.Cluster.HandleDeletion | controllers/gitchangeoperator_controller.go:271-280 | a deleted object only loses its finalizer |
| OperatorReconciler.Cluster.ReportReady | controllers/gitchangeoperator_controller.go:133-148 | up to five attempts, and all five before a conflict is reported, end in one report for the generation read or in none |
| OperatorReconciler.Cluster.Reconcile | controllers/gitchangeoperator_controller.go:37-152 | whatever is edited meanwhile: the plan of the spec read, and Ready for its generation if and only if all of it succeeded; throughout, the stored generation never exceeds the object's and every Ready followed a full pass (Valid) |
| OperatorReconciler.ReportJustified | controllers/gitchangeoperator_controller.go:133-148 | a report right after all moves for the spec of its generation keeps every report justified |
| OperatorReconciler.NewSpecJustified | controllers/gitchangeoperator_controller.go:133-148 | a concurrent edit of the spec does not undo that |

## Left out

- HTTP, CEL, git, the GitHub API, the Kubernetes transport and age: oracles that succeed or fail freely; a cipher is a
  function with an inverse.
- The cron parser and calendar arithmetic: a schedule is a set of ticks with one in every window of some length. This
  leaves out `@every`, whose next time moves with the clock, and expressions that no date ever meets, for which the
  library returns a zero time.
- Stored times have a granularity of one second in the API; the model keeps nanoseconds.
- Outdated first reads of scheduled objects, and foreign writers of the status during a run: the run theorems assume
  neither (nor, for one-shot GitCommits, outdated reads, which break them). The helpers are proved with both.
- The PullRequest copies of the status helpers, of the REST check and of the file content builder are modelled once
  for both kinds; they differ only in the result they record and in the call limit.
- API server defaulting and validation, among them the default type of a Service; the namespaces of owned objects; the
  object fields that no reconcile of the GitChangeOperator sets; other clients' writes to owned objects during a
  reconcile.
- Finalizers other than the operator's own, and an object deleted and created anew under the same name.
- File system errors, and paths that name a directory in one place and a file in another. Paths are clean.
- Commit histories: a branch is the tree at its tip, and whether a push is accepted, no fast-forward or rejected is
  learned rather than derived.
- Values of a data map are strings; the YAML and `%v` renderings of other values are not modelled.
- Secret lookup, recipient resolution, logging, metrics, generated code, manifests and `main.go`.
