/** The hosted repository, and createPullRequest: clone, write, commit, push the head branch, open
    the pull request. */
module Forge {
  import opened Wrappers
  import opened Api
  import opened RestApis
  import opened Worktree
  import opened ResourceRefs
  import opened FreshFiles
  import opened GitRemote
  import opened RepositoryUrl

  datatype PrRef = PrRef(number: int, url: string)

  const NO_PR := PrRef(0, "")

  datatype Push = Accepted | NonFastForward | Rejected

  datatype PrJob = PrJob(
    repository: string, head: string, files: seq<FileSpec>, refs: seq<ResourceRef>, crypto: Crypto)

  // A pull request and the REST status entries its files were built from.
  datatype Pull = Pull(ref: PrRef, entries: seq<RestStatus>)

  // The tree at the tip of each branch. A clone checks out the default branch.
  class Hub {
    const default: string
    var branches: map<string, Tree>
    var pulls: seq<Pull>

    constructor (default: string, branches: map<string, Tree>)
      requires default in branches
      ensures this.default == default && this.branches == branches && pulls == []
    {
      this.default, this.branches, pulls := default, branches, [];
    }
  }

  // What is learned on the way. The errors of clone and commit, if any; what the cipher draws for each
  // file; what is read for each reference; and what came of the push and of the request to open.
  datatype PrLearned = PrLearned(
    cloned: Option<string>,
    draws: nat -> nat,
    inputs: nat -> Reading,
    committed: Option<string>,
    push: Push,
    answer: Result<PrRef, string>)

  const NOTHING_MADE :=
    PrLearned(Some(""), (i: nat) => 0, (i: nat) => NOTHING_READ, Some(""), Rejected, Failure(""))

  // How a creation ends. Crashed is the panic of the URL parser, after which nothing else is done.
  datatype Made = Opened(pr: PrRef) | Refused(message: string) | Crashed

  // Does it get as far as a commit?
  predicate Committed(job: PrJob, entries: seq<RestStatus>, l: PrLearned) {
    && l.cloned.None? && AllWritable(job.crypto, job.files, entries)
    && PrAllRefsWritable(job.crypto, job.refs, l.inputs) && l.committed.None?
  }

  function Creation(job: PrJob, entries: seq<RestStatus>, l: PrLearned): Made {
    if l.cloned.Some? then Refused(l.cloned.value)
    else if !AllWritable(job.crypto, job.files, entries) then Refused("failed to write file")
    else if !PrAllRefsWritable(job.crypto, job.refs, l.inputs) then Refused("failed to process resource reference")
    else if l.committed.Some? then Refused(l.committed.value)
    else if l.push.Rejected? then Refused("push failed")
    else
      match ParseRepository(job.repository)
      case Invalid => Refused("unsupported repository URL format")
      case Panic => Crashed
      case Repo(_, _) =>
        match l.answer
        case Failure(m) => Refused("failed to create GitHub pull request: " + m)
        case Success(pr) => Opened(pr)
  }

  // Does the creation move the head branch, whatever comes after?
  predicate HeadPushed(job: PrJob, entries: seq<RestStatus>, l: PrLearned) {
    Committed(job, entries, l) && l.push.Accepted?
  }

  // The head branch starts from the default one every time.
  function HeadTree(job: PrJob, entries: seq<RestStatus>, cloned: Tree, l: PrLearned): Tree {
    PrFold(job.crypto, PrFold(job.crypto, cloned, Puts(job.files, entries, l.draws)), PrAllPuts(job.refs, l.inputs))
  }

  // The head branch is moved, and no other, if it is pushed; otherwise none is.
  ghost predicate HeadMoved(job: PrJob, entries: seq<RestStatus>, l: PrLearned, default: string,
                            before: map<string, Tree>, after: map<string, Tree>)
  {
    && default in before
    && (HeadPushed(job, entries, l) ==> OnlyMoved(job.head, HeadTree(job, entries, before[default], l), before, after))
    && (!HeadPushed(job, entries, l) ==> after == before)
  }

  function Pulls(refs: seq<PrRef>, entries: seq<RestStatus>): seq<Pull> {
    if refs == [] then [] else [Pull(refs[0], entries)]
  }

  /** One pull request or none, and one branch pushed or none, as Creation and HeadPushed say. */
  method CreatePullRequest(hub: Hub, job: PrJob, entries: seq<RestStatus>)
    returns (made: Made, ghost l: PrLearned)
    requires hub.default in hub.branches
    modifies hub
    ensures made == Creation(job, entries, l) && (made.Opened? ==> made.pr != NO_PR)
    ensures hub.default in hub.branches
    ensures HeadMoved(job, entries, l, hub.default, old(hub.branches), hub.branches)
    ensures hub.pulls == old(hub.pulls) + if made.Opened? then [Pull(made.pr, entries)] else []
  {
    hide ParseRepository, AllWritable, PrAllRefsWritable, Puts, PrAllPuts, PrFold;
    var cloned: Option<string>, committed: Option<string> :| true;
    var draws: nat -> nat :| true;
    var inputs: nat -> Reading :| true;
    var push: Push :| true;
    l := PrLearned(cloned, draws, inputs, committed, push, Failure(""));
    if cloned.Some? {
      return Refused(cloned.value), l;
    }
    var dir := new Dir(hub.branches[hub.default]);
    var failed := PrWriteFiles(dir, job.crypto, job.files, entries, draws);
    if failed {
      return Refused("failed to write file"), l;
    }
    failed := PrWriteRefs(dir, job.crypto, job.refs, inputs);
    if failed {
      return Refused("failed to process resource reference"), l;
    }
    if committed.Some? {
      return Refused(committed.value), l;
    }
    if push.Accepted? {
      hub.branches := hub.branches[job.head := dir.index];
    }
    if push.Rejected? {
      return Refused("push failed"), l;
    }
    var repository := ParseRepository(job.repository);
    if repository.Panic? {
      return Crashed, l;
    }
    if repository.Invalid? {
      return Refused("unsupported repository URL format"), l;
    }
    assert PrRef(1, "") != NO_PR;
    var ref: PrRef, message: string :| ref != NO_PR;
    if * {
      l := l.(answer := Failure(message));
      return Refused("failed to create GitHub pull request: " + message), l;
    }
    l := l.(answer := Success(ref));
    hub.pulls := hub.pulls + [Pull(ref, entries)];
    made := Opened(ref);
  }

  /** An error may leave the branch behind: exactly when an accepted push is followed by a URL that does
      not parse or by a refusal. */
  lemma FailsAfterPushIff(job: PrJob, entries: seq<RestStatus>, l: PrLearned)
    ensures !Creation(job, entries, l).Opened? && HeadPushed(job, entries, l) <==>
              && Committed(job, entries, l) && l.push.Accepted?
              && (!ParseRepository(job.repository).Repo? || l.answer.Failure?)
  {
    hide AllWritable, PrAllRefsWritable, ParseRepository;
  }

  /** A pull request may be opened for a branch without these files: exactly when the push was refused
      for not being a fast-forward and everything else went well. */
  lemma OpensWithoutPushIff(job: PrJob, entries: seq<RestStatus>, l: PrLearned)
    ensures Creation(job, entries, l).Opened? && !HeadPushed(job, entries, l) <==>
              && Committed(job, entries, l) && l.push.NonFastForward?
              && ParseRepository(job.repository).Repo? && l.answer.Success?
  {
    hide AllWritable, PrAllRefsWritable, ParseRepository;
  }

  /** A repository elsewhere: nothing is ever opened, yet whenever commit and push succeed the branch is
      there. The URL of a GitHub repository whose name is too short crashes instead. */
  lemma NeverOpensElsewhere(job: PrJob, entries: seq<RestStatus>, l: PrLearned)
    ensures !ParseRepository(job.repository).Repo? ==> !Creation(job, entries, l).Opened?
    ensures job.repository == "https://gitlab.com/a/b" && Committed(job, entries, l) && l.push.Accepted? ==>
              Creation(job, entries, l).Refused? && HeadPushed(job, entries, l)
    ensures job.repository == PREFIX + "a/b" && Committed(job, entries, l) && l.push.Accepted? ==>
              Creation(job, entries, l).Crashed? && HeadPushed(job, entries, l)
  {
    hide AllWritable, PrAllRefsWritable;
    PanicIff(PREFIX + "a/b", "a/b");
    assert "https://gitlab.com/a/b"[..|PREFIX|][11] != PREFIX[11];
  }

  /** A pull request is opened, and it is the one GitHub answered with, exactly when there is a commit, the
      push was accepted or no fast-forward, the URL parses and GitHub does not refuse; the parser crashes
      exactly when it gets that far and panics. */
  lemma EndsAs(job: PrJob, entries: seq<RestStatus>, l: PrLearned)
    ensures var made, url := Creation(job, entries, l), ParseRepository(job.repository);
            && (made.Opened? <==> Committed(job, entries, l) && !l.push.Rejected? && url.Repo? && l.answer.Success?)
            && (made.Opened? ==> made.pr == l.answer.value)
            && (made.Crashed? <==> Committed(job, entries, l) && !l.push.Rejected? && url.Panic?)
  {
    hide AllWritable, PrAllRefsWritable, ParseRepository;
  }

  /* How an attempt to open a pull request ends, from what came back alone. */

  // Is there a pull request? It takes a commit, a push that is accepted or no fast-forward, a URL that
  // parses, and GitHub's consent.
  ghost predicate Opens(job: PrJob, entries: seq<RestStatus>, l: PrLearned) {
    Committed(job, entries, l) && !l.push.Rejected? && ParseRepository(job.repository).Repo? && l.answer.Success?
  }

  // Does the URL parser panic?
  ghost predicate Panics(job: PrJob, entries: seq<RestStatus>, l: PrLearned) {
    Committed(job, entries, l) && !l.push.Rejected? && ParseRepository(job.repository).Panic?
  }

  ghost predicate PrMustFail(job: PrJob, apis: seq<RestApi>, sts: seq<RestStatus>, xs: seq<Exchange>,
                             auth: Option<string>, l: PrLearned)
    requires |xs| == |apis|
  {
    var entries := BuiltFrom(apis, sts, xs, None);
    || AnyBreaks(apis, Aligned(apis, sts), xs, |apis|, None)
    || (&& AllPass(apis, Aligned(apis, sts), xs, |apis|, None)
        && (auth.Some? || (!Opens(job, entries, l) && !Panics(job, entries, l))))
  }

  ghost predicate PrMustWait(apis: seq<RestApi>, sts: seq<RestStatus>, xs: seq<Exchange>)
    requires |xs| == |apis|
  {
    && !AnyBreaks(apis, Aligned(apis, sts), xs, |apis|, None)
    && !AllPass(apis, Aligned(apis, sts), xs, |apis|, None)
  }

  ghost predicate MustCrash(job: PrJob, apis: seq<RestApi>, sts: seq<RestStatus>, xs: seq<Exchange>,
                            auth: Option<string>, l: PrLearned)
    requires |xs| == |apis|
  {
    && AllPass(apis, Aligned(apis, sts), xs, |apis|, None)
    && auth.None? && Panics(job, BuiltFrom(apis, sts, xs, None), l)
  }

  // What the check and the creation make of an attempt.
  lemma PrAttemptIs(job: PrJob, apis: seq<RestApi>, sts: seq<RestStatus>, xs: seq<Exchange>, auth: Option<string>,
                    l: PrLearned)
    requires |xs| == |apis|
    ensures var verdict := if apis == [] then Met else CheckAll(apis, sts, xs, None).1;
            var made := Creation(job, BuiltFrom(apis, sts, xs, None), l);
            && (PrMustFail(job, apis, sts, xs, auth, l) <==>
                 verdict.Broken? || (verdict.Met? && (auth.Some? || made.Refused?)))
            && (PrMustWait(apis, sts, xs) <==> verdict.NotMet?)
            && (MustCrash(job, apis, sts, xs, auth, l) <==> verdict.Met? && auth.None? && made.Crashed?)
            && (made.Opened? ==> l.answer.Success? && made.pr == l.answer.value)
  {
    hide CheckAll, AnyBreaks, AllPass, BuiltFrom, Creation, Committed, ParseRepository;
    VerdictIff(apis, sts, xs, None);
    EndsAs(job, BuiltFrom(apis, sts, xs, None), l);
    if apis == [] {
      NothingToMeet(sts, xs);
    }
  }

  lemma NothingToMeet(sts: seq<RestStatus>, xs: seq<Exchange>)
    requires xs == []
    ensures !AnyBreaks([], Aligned([], sts), xs, 0, None) && AllPass([], Aligned([], sts), xs, 0, None)
  {
  }

  /** An overwriting file with literal content that nothing later targets is in the head branch as it is in
      the spec, sealed if encryption asks for it. */
  lemma HeadHoldsLiteralFile(job: PrJob, entries: seq<RestStatus>, cloned: Tree, l: PrLearned, i: nat)
    requires i < |job.files| && !job.files[i].useRestData && !job.files[i].append
    requires !WrittenLater(job.crypto, job.files, PrAllPuts(job.refs, l.inputs), i)
    ensures FileIs(job.crypto, job.files, l.draws, HeadTree(job, entries, cloned, l), i, job.files[i].content)
  {
    hide FileIs, GcFold, PrFold, PrAllPuts, WrittenLater;
    LiteralFileStays(job.crypto, cloned, job.files, entries, l.draws, PrAllPuts(job.refs, l.inputs), i);
  }

  /** File j of an overwriting reference i is in the head branch in the same way. */
  lemma HeadHoldsReference(job: PrJob, entries: seq<RestStatus>, cloned: Tree, l: PrLearned, i: nat, j: nat)
    requires i < |job.refs| && PrRefPuts(job.refs[i], l.inputs(i)).Some? && !job.refs[i].append
    requires j < |PrRefPuts(job.refs[i], l.inputs(i)).value|
    requires var puts := PrRefPuts(job.refs[i], l.inputs(i)).value;
             var target := Target(puts[j].path, job.crypto.config);
             && target !in Targets(job.crypto, puts[j + 1..])
             && forall k :: i < k < |job.refs| ==> !PrTargets(job.crypto, job.refs, l.inputs, k, target)
    ensures var put, c := PrRefPuts(job.refs[i], l.inputs(i)).value[j], job.crypto;
            At(HeadTree(job, entries, cloned, l), Target(put.path, c.config))
            == if ShouldEncrypt(put.path, c.config) then c.cipher.enc(put.nonce, put.content) else put.content
  {
    hide PrFold, PrAllPuts, PrRefPuts, Targets, Puts, ShouldEncrypt;
    var written := PrFold(job.crypto, cloned, Puts(job.files, entries, l.draws));
    PrReferenceStays(job.crypto, written, job.refs, l.inputs, i, j);
  }

  /** Without encryption a path holds, in the head branch, the last overwrite of the spec, or what was
      cloned, followed by all later appends in order. */
  lemma HeadAddsUp(job: PrJob, entries: seq<RestStatus>, cloned: Tree, l: PrLearned, path: Path, k: int)
    requires Plain(job.crypto) && IsLastOverwrite(job.files, path, k)
    requires path !in Targets(job.crypto, PrAllPuts(job.refs, l.inputs))
    requires forall j :: 0 <= j < |job.files| && job.files[j].path == path ==> !job.files[j].useRestData
    ensures At(HeadTree(job, entries, cloned, l), path)
            == (if k >= 0 then job.files[k].content else At(cloned, path)) + Appended(job.files, path, k + 1)
  {
    hide GcFold, PrFold, PrAllPuts, Targets, Plain, Appended;
    LiteralFilesAddUp(job.crypto, cloned, job.files, entries, l.draws, PrAllPuts(job.refs, l.inputs), path, k);
  }
}
