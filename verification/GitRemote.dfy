/** The remote repository, and performGitCommit: clone, write, commit, push. */
module GitRemote {
  import opened Wrappers
  import opened Api
  import opened RestApis
  import opened Worktree
  import opened ResourceRefs
  import opened FreshFiles

  // A pushed commit and the REST status entries its files were built from.
  datatype Commit = Commit(sha: string, entries: seq<RestStatus>)

  // The tree at the tip of each branch. A clone checks out the default branch.
  class Remote {
    const default: string
    var branches: map<string, Tree>
    var commits: seq<Commit>

    constructor (default: string, branches: map<string, Tree>)
      requires default in branches
      ensures this.default == default && this.branches == branches && commits == []
    {
      this.default, this.branches, commits := default, branches, [];
    }
  }

  datatype Job = Job(branch: string, files: seq<FileSpec>, refs: seq<ResourceRef>, crypto: Crypto)

  // What is learned on the way: whether the clone succeeded, what the cipher draws for each file, what
  // is read for each reference, and what came of commit and push.
  datatype Learned = Learned(
    cloned: Option<string>,  // the error, if any
    draws: nat -> nat,
    inputs: nat -> Reading,
    delivered: Result<string, string>)

  const NOTHING_READ: Reading := Fetched(None, [], (p: Path) => 0)

  const NOT_CLONED := Learned(Some(""), (i: nat) => 0, (i: nat) => NOTHING_READ, Failure(""))

  // The SHA of the commit, or why there is none.
  function Delivery(job: Job, entries: seq<RestStatus>, l: Learned): Result<string, string> {
    if l.cloned.Some? then Failure(l.cloned.value)
    else if !AllWritable(job.crypto, job.files, entries) then Failure("failed to write file")
    else if !GcAllRefsWritable(job.crypto, job.refs, l.inputs) then Failure("failed to process resource reference")
    else l.delivered
  }

  // The clone with all files and then all references written over it.
  function CommittedTree(job: Job, entries: seq<RestStatus>, cloned: Tree, l: Learned): Tree {
    GcFold(job.crypto, GcFold(job.crypto, cloned, Puts(job.files, entries, l.draws)), GcAllPuts(job.refs, l.inputs))
  }

  // A branch called main or master is not checked out: the default branch, whatever its name, stays.
  function PushedBranch(job: Job, default: string): string {
    if job.branch == "" || job.branch == "main" || job.branch == "master" then default else job.branch
  }

  // Exactly this branch is moved, to exactly this tree, and every other one stays.
  ghost predicate OnlyMoved(branch: string, tree: Tree, before: map<string, Tree>, after: map<string, Tree>) {
    && branch in after && after[branch] == tree
    && forall b :: b != branch ==> (b in after <==> b in before) && (b in before ==> after[b] == before[b])
  }

  // A commit on a branch of its own moves that and not the default one; a branch called main or master, or
  // none, stands for the default one.
  ghost predicate Moved(job: Job, tree: Tree, default: string, before: map<string, Tree>, after: map<string, Tree>) {
    && (job.branch !in {"", "main", "master"} ==> OnlyMoved(job.branch, tree, before, after))
    && (job.branch in {"", "main", "master"} ==> OnlyMoved(default, tree, before, after))
  }

  lemma MovedIs(job: Job, tree: Tree, default: string, before: map<string, Tree>, after: map<string, Tree>)
    ensures Moved(job, tree, default, before, after) <==> after == before[PushedBranch(job, default) := tree]
  {
    if Moved(job, tree, default, before, after) {
      var branch := PushedBranch(job, default);
      assert forall b :: b in after <==> b in before[branch := tree];
    }
  }

  /** An error leaves the remote as it was, and comes exactly when something needed failed or was missing;
      otherwise one new commit is there under the returned SHA, with what was staged as its tree. */
  method PerformGitCommit(remote: Remote, job: Job, entries: seq<RestStatus>)
    returns (sha: Result<string, string>, ghost l: Learned)
    requires remote.default in remote.branches
    modifies remote
    ensures sha == Delivery(job, entries, l) && (l.delivered.Success? ==> l.delivered.value != "")
    ensures remote.default in remote.branches
    ensures sha.Failure? ==> remote.branches == old(remote.branches)
    ensures sha.Success? ==>
              Moved(job, CommittedTree(job, entries, old(remote.branches)[remote.default], l), remote.default,
                    old(remote.branches), remote.branches)
    ensures remote.commits == old(remote.commits) + if sha.Success? then [Commit(sha.value, entries)] else []
  {
    hide Puts, GcFold, GcAllPuts, AllWritable, GcAllRefsWritable;
    var cloned: Option<string> :| true;
    var draws: nat -> nat :| true;
    var inputs: nat -> Reading :| true;
    l := Learned(cloned, draws, inputs, Failure(""));
    if cloned.Some? {
      return Failure(cloned.value), l;
    }
    var dir := new Dir(remote.branches[remote.default]);
    var failed := GcWriteFiles(dir, job.crypto, job.files, entries, draws);
    if failed {
      return Failure("failed to write file"), l;
    }
    failed := GcWriteRefs(dir, job.crypto, job.refs, inputs);
    if failed {
      return Failure("failed to process resource reference"), l;
    }
    assert "0" != "";
    var id: string, message: string :| id != "";
    if * {
      sha := Success(id);
    } else {
      sha := Failure(message);
    }
    l := l.(delivered := sha);
    if sha.Success? {
      remote.branches := remote.branches[PushedBranch(job, remote.default) := dir.index];
      remote.commits := remote.commits + [Commit(sha.value, entries)];
    }
  }

  // What a reconcile with these results did to the remote: nothing, or the commit that Learned tells of.
  ghost predicate Delivered(job: Job, entries: seq<RestStatus>, l: Learned, shas: seq<string>, default: string,
                            before: map<string, Tree>, after: map<string, Tree>,
                            commits: seq<Commit>, more: seq<Commit>)
  {
    if shas == [] then after == before && more == commits
    else
      && default in before
      && Moved(job, CommittedTree(job, entries, before[default], l), default, before, after)
      && more == commits + [Commit(shas[0], entries)]
  }

  // The branches after a reconcile with these results.
  function BranchesWith(job: Job, entries: seq<RestStatus>, l: Learned, shas: seq<string>, default: string,
                        before: map<string, Tree>): (r: map<string, Tree>)
    requires default in before
    ensures default in r
  {
    if shas == [] then before else before[PushedBranch(job, default) := CommittedTree(job, entries, before[default], l)]
  }

  lemma DeliveredIs(job: Job, entries: seq<RestStatus>, l: Learned, shas: seq<string>, default: string,
                    before: map<string, Tree>, commits: seq<Commit>)
    requires default in before
    ensures Delivered(job, entries, l, shas, default, before, BranchesWith(job, entries, l, shas, default, before),
                      commits, commits + if shas == [] then [] else [Commit(shas[0], entries)])
  {
    hide CommittedTree;
    MovedIs(job, CommittedTree(job, entries, before[default], l), default, before,
            BranchesWith(job, entries, l, shas, default, before));
  }

  /* How an attempt to commit ends, from what came back alone. */

  // It fails if the breaker is tripped or some call broke, and, with all conditions met, if the credentials
  // are missing, the clone failed, a file or a reference cannot be written, or commit or push failed.
  ghost predicate MustFail(job: Job, apis: seq<RestApi>, sts: seq<RestStatus>, xs: seq<Exchange>, auth: Option<string>,
                           l: Learned)
    requires |xs| == |apis|
  {
    var entries := BuiltFrom(apis, sts, xs, Some(10));
    || Halted(apis, sts)
    || AnyBreaks(apis, Aligned(apis, sts), xs, |apis|, Some(10))
    || (&& AllPass(apis, Aligned(apis, sts), xs, |apis|, Some(10))
        && (|| auth.Some? || l.cloned.Some? || l.delivered.Failure?
            || !AllWritable(job.crypto, job.files, entries) || !GcAllRefsWritable(job.crypto, job.refs, l.inputs)))
  }

  // It waits if every call could be judged and some condition is not met.
  ghost predicate MustWait(apis: seq<RestApi>, sts: seq<RestStatus>, xs: seq<Exchange>)
    requires |xs| == |apis|
  {
    && !Halted(apis, sts)
    && !AnyBreaks(apis, Aligned(apis, sts), xs, |apis|, Some(10))
    && !AllPass(apis, Aligned(apis, sts), xs, |apis|, Some(10))
  }

  // What the breaker, the check and the delivery make of an attempt.
  lemma AttemptIs(job: Job, apis: seq<RestApi>, sts: seq<RestStatus>, xs: seq<Exchange>, auth: Option<string>,
                  l: Learned)
    requires |xs| == |apis|
    ensures var entries, halted := BuiltFrom(apis, sts, xs, Some(10)), apis != [] && FirstTripped(sts).Some?;
            var verdict := if apis == [] then Met else CheckAll(apis, sts, xs, Some(CALL_LIMIT)).1;
            var delivery := Delivery(job, entries, l);
            && (halted <==> Halted(apis, sts))
            && (MustFail(job, apis, sts, xs, auth, l) <==>
                 halted || verdict.Broken? || (verdict.Met? && (auth.Some? || delivery.Failure?)))
            && (MustWait(apis, sts, xs) <==> !halted && verdict.NotMet?)
            && (delivery.Success? ==> delivery.value == l.delivered.value)
  {
    hide CheckAll, Halted, AnyBreaks, AllPass, AllWritable, GcAllRefsWritable, BuiltFrom, FirstTripped;
    HaltedIff(apis, sts);
    VerdictIff(apis, sts, xs, Some(10));
    if apis == [] {
      NoApis(sts, xs);
    }
  }

  lemma NoApis(sts: seq<RestStatus>, xs: seq<Exchange>)
    requires xs == []
    ensures !AnyBreaks([], Aligned([], sts), xs, 0, Some(10)) && AllPass([], Aligned([], sts), xs, 0, Some(10))
  {
  }

  /* What a committed tree holds. */

  /** An overwriting file with literal content that nothing later targets is in the commit as it is in the
      spec, sealed if encryption asks for it. */
  lemma CommitHoldsLiteralFile(job: Job, entries: seq<RestStatus>, cloned: Tree, l: Learned, i: nat)
    requires i < |job.files| && !job.files[i].useRestData && !job.files[i].append
    requires !WrittenLater(job.crypto, job.files, GcAllPuts(job.refs, l.inputs), i)
    ensures FileIs(job.crypto, job.files, l.draws, CommittedTree(job, entries, cloned, l), i, job.files[i].content)
  {
    hide FileIs, GcFold, PrFold, GcAllPuts, WrittenLater;
    LiteralFileStays(job.crypto, cloned, job.files, entries, l.draws, GcAllPuts(job.refs, l.inputs), i);
  }

  /** File j of reference i is in the commit, over whatever files wrote there, sealed if encryption asks for
      it, unless a later file of the reference or a later reference goes to its target. */
  lemma CommitHoldsReference(job: Job, entries: seq<RestStatus>, cloned: Tree, l: Learned, i: nat, j: nat)
    requires i < |job.refs| && GcRefPuts(job.refs[i], l.inputs(i)).Some?
    requires j < |GcRefPuts(job.refs[i], l.inputs(i)).value|
    requires var puts := GcRefPuts(job.refs[i], l.inputs(i)).value;
             var target := Target(puts[j].path, job.crypto.config);
             && target !in Targets(job.crypto, puts[j + 1..])
             && forall k :: i < k < |job.refs| ==> !GcTargets(job.crypto, job.refs, l.inputs, k, target)
    ensures var put, c := GcRefPuts(job.refs[i], l.inputs(i)).value[j], job.crypto;
            At(CommittedTree(job, entries, cloned, l), Target(put.path, c.config))
            == if ShouldEncrypt(put.path, c.config) then c.cipher.enc(put.nonce, put.content) else put.content
  {
    hide GcFold, GcAllPuts, GcRefPuts, Targets, Puts, ShouldEncrypt;
    var written := GcFold(job.crypto, cloned, Puts(job.files, entries, l.draws));
    GcReferenceStays(job.crypto, written, job.refs, l.inputs, i, j);
  }

  /** Without encryption a path holds, in the commit, the last overwrite of the spec, or what was cloned,
      followed by all later appends in order. */
  lemma CommitAddsUp(job: Job, entries: seq<RestStatus>, cloned: Tree, l: Learned, path: Path, k: int)
    requires Plain(job.crypto) && IsLastOverwrite(job.files, path, k)
    requires path !in Targets(job.crypto, GcAllPuts(job.refs, l.inputs))
    requires forall j :: 0 <= j < |job.files| && job.files[j].path == path ==> !job.files[j].useRestData
    ensures At(CommittedTree(job, entries, cloned, l), path)
            == (if k >= 0 then job.files[k].content else At(cloned, path)) + Appended(job.files, path, k + 1)
  {
    hide GcFold, PrFold, GcAllPuts, Targets, Plain, Appended;
    LiteralFilesAddUp(job.crypto, cloned, job.files, entries, l.draws, GcAllPuts(job.refs, l.inputs), path, k);
  }
}
