/** What REST outputs become in the tree of a commit. */
module FreshFiles {
  import opened Wrappers
  import opened Api
  import opened RestApis
  import opened Worktree

  // A file that takes the outputs of all APIs and overwrites.
  predicate IsAllApisFile(file: FileSpec) {
    file.useRestData && file.source.restName == "" && !file.append
  }

  // Does a later file, or one of the references, have the same target as file i?
  predicate WrittenLater(c: Crypto, files: seq<FileSpec>, refs: seq<Put>, i: nat)
    requires i < |files|
  {
    var target := Target(files[i].path, c.config);
    || (exists j :: i < j < |files| && Target(files[j].path, c.config) == target)
    || target in Targets(c, refs)
  }

  // Does the tree hold this content at the target of file i, sealed if encryption asks for it?
  predicate FileIs(c: Crypto, files: seq<FileSpec>, draws: nat -> nat, tree: Tree, i: nat, content: Bytes)
    requires i < |files|
  {
    var path := files[i].path;
    At(tree, Target(path, c.config))
    == if ShouldEncrypt(path, c.config) then c.cipher.enc(draws(i), content) else content
  }

  lemma {:induction false} TargetsAt(c: Crypto, puts: seq<Put>, path: Path)
    ensures path in Targets(c, puts) <==> exists j :: 0 <= j < |puts| && Target(puts[j].path, c.config) == path
  {
    if puts != [] {
      TargetsAt(c, puts[..|puts| - 1], path);
    }
  }

  lemma LaterTargets(c: Crypto, files: seq<FileSpec>, entries: seq<RestStatus>, draws: nat -> nat, refs: seq<Put>,
                     i: nat)
    requires i < |files| && !WrittenLater(c, files, refs, i)
    ensures Target(files[i].path, c.config) !in Targets(c, Puts(files, entries, draws)[i + 1..] + refs)
  {
    hide Target;
    var puts, path := Puts(files, entries, draws), Target(files[i].path, c.config);
    var later := puts[i + 1..] + refs;
    TargetsAt(c, later, path);
    TargetsAt(c, refs, path);
    forall j | 0 <= j < |later| ensures Target(later[j].path, c.config) != path {
      if j < |files| - i - 1 {
        PutsAt(files, entries, draws, i + 1 + j);
      } else {
        assert later[j] == refs[j - (|files| - i - 1)];
      }
    }
  }

  // With either writer, an overwriting file that nothing later targets ends up with its settled content.
  lemma SettledFileStays(c: Crypto, cloned: Tree, files: seq<FileSpec>, entries: seq<RestStatus>, draws: nat -> nat,
                         refs: seq<Put>, i: nat)
    requires i < |files| && !files[i].append && !WrittenLater(c, files, refs, i)
    ensures var puts, content := Puts(files, entries, draws), Settled(files[i], entries);
            && FileIs(c, files, draws, GcFold(c, GcFold(c, cloned, puts), refs), i, content)
            && FileIs(c, files, draws, PrFold(c, PrFold(c, cloned, puts), refs), i, content)
  {
    hide Settled, GcFold, PrFold, Targets, Target, WrittenLater;
    var puts := Puts(files, entries, draws);
    PutsAt(files, entries, draws, i);
    LaterTargets(c, files, entries, draws, refs, i);
    assert (puts + refs)[i + 1..] == puts[i + 1..] + refs;
    LastOverwriteStays(c, cloned, puts + refs, i);
    FoldConcat(c, cloned, puts, refs);
  }

  /* Literal content. */

  /** With either writer, an overwriting file with literal content that nothing later targets ends up with
      that content at its target, sealed if encryption asks for it. */
  lemma LiteralFileStays(c: Crypto, cloned: Tree, files: seq<FileSpec>, entries: seq<RestStatus>, draws: nat -> nat,
                         refs: seq<Put>, i: nat)
    requires i < |files| && !files[i].useRestData && !files[i].append && !WrittenLater(c, files, refs, i)
    ensures var puts := Puts(files, entries, draws);
            && FileIs(c, files, draws, GcFold(c, GcFold(c, cloned, puts), refs), i, files[i].content)
            && FileIs(c, files, draws, PrFold(c, PrFold(c, cloned, puts), refs), i, files[i].content)
  {
    hide FileIs, GcFold, PrFold, WrittenLater;
    SettledFileStays(c, cloned, files, entries, draws, refs, i);
  }

  // What a put leaves at its target when it appends.
  lemma AppendPuts(c: Crypto, tree: Tree, put: Put)
    requires put.append
    ensures var target, encrypts := Target(put.path, c.config), ShouldEncrypt(put.path, c.config);
            && At(GcPut(c, tree, put), target)
               == At(tree, target) + (if encrypts then c.cipher.enc(put.nonce, put.content) else put.content)
            && At(PrPut(c, tree, put), target)
               == if encrypts then c.cipher.enc(put.nonce, At(tree, put.path) + put.content)
                  else At(tree, put.path) + put.content
  {
  }

  /** An appending file with literal content that nothing later targets. GitCommit leaves at its target what
      the files before left there, followed by the content, sealed by itself if encryption asks for it;
      PullRequest seals what they left at the plain path together with the content. */
  lemma LiteralAppendStays(c: Crypto, cloned: Tree, files: seq<FileSpec>, entries: seq<RestStatus>, draws: nat -> nat,
                           refs: seq<Put>, i: nat)
    requires i < |files| && !files[i].useRestData && files[i].append && !WrittenLater(c, files, refs, i)
    ensures var puts, path, content := Puts(files, entries, draws), files[i].path, files[i].content;
            var target, encrypts := Target(path, c.config), ShouldEncrypt(path, c.config);
            var gc, pr := GcFold(c, cloned, puts[..i]), PrFold(c, cloned, puts[..i]);
            && At(GcFold(c, GcFold(c, cloned, puts), refs), target)
               == At(gc, target) + (if encrypts then c.cipher.enc(draws(i), content) else content)
            && At(PrFold(c, PrFold(c, cloned, puts), refs), target)
               == if encrypts then c.cipher.enc(draws(i), At(pr, path) + content) else At(pr, path) + content
  {
    hide GcFold, PrFold, GcPut, PrPut, Targets, Target, ShouldEncrypt, WrittenLater;
    var puts := Puts(files, entries, draws);
    var first, later := puts[..i + 1], puts[i + 1..];
    PutsAt(files, entries, draws, i);
    LaterTargets(c, files, entries, draws, refs, i);
    assert puts + refs == first + (later + refs);
    FoldConcat(c, cloned, puts, refs);
    FoldConcat(c, cloned, first, later + refs);
    FoldStep(c, cloned, puts, i);
    AppendPuts(c, GcFold(c, cloned, puts[..i]), puts[i]);
    AppendPuts(c, PrFold(c, cloned, puts[..i]), puts[i]);
    UnnamedPathsKept(c, GcFold(c, cloned, first), later + refs, Target(files[i].path, c.config));
    UnnamedPathsKept(c, PrFold(c, cloned, first), later + refs, Target(files[i].path, c.config));
  }

  // Is k the index of the last file that overwrites the path, or -1 if none does?
  predicate IsLastOverwrite(files: seq<FileSpec>, path: Path, k: int) {
    && -1 <= k < |files|
    && (k >= 0 ==> files[k].path == path && !files[k].append)
    && forall j :: k < j < |files| && files[j].path == path ==> files[j].append
  }

  // The contents that the files from index k on append to the path, in order.
  function Appended(files: seq<FileSpec>, path: Path, k: nat): Bytes
    requires k <= |files|
    decreases |files| - k
  {
    if k == |files| then ""
    else if files[k].path == path && files[k].append then files[k].content + Appended(files, path, k + 1)
    else Appended(files, path, k + 1)
  }

  // Literal files put what they say.
  lemma {:induction false} AppendedIs(files: seq<FileSpec>, entries: seq<RestStatus>, draws: nat -> nat, path: Path,
                                      k: nat)
    requires k <= |files| && forall j :: 0 <= j < |files| && files[j].path == path ==> !files[j].useRestData
    ensures AppendedFrom(Puts(files, entries, draws), path, k) == Appended(files, path, k)
    decreases |files| - k
  {
    if k < |files| {
      PutsAt(files, entries, draws, k);
      AppendedIs(files, entries, draws, path, k + 1);
      assert "" + Appended(files, path, k + 1) == Appended(files, path, k + 1);
    }
  }

  lemma LastOverwriteIs(files: seq<FileSpec>, entries: seq<RestStatus>, draws: nat -> nat, path: Path, k: int)
    requires IsLastOverwrite(files, path, k)
    ensures LastOverwrite(Puts(files, entries, draws), path) == k
  {
    var puts := Puts(files, entries, draws);
    forall j | 0 <= j < |files| ensures puts[j].path == files[j].path && puts[j].append == files[j].append {
      PutsAt(files, entries, draws, j);
    }
  }

  /** Without encryption, and with either writer, a path written to by files with literal content holds the
      content of the last file that overwrites it, or what was cloned, followed by the contents of all later
      files that append to it, in order; unless a reference targets it. */
  lemma LiteralFilesAddUp(c: Crypto, cloned: Tree, files: seq<FileSpec>, entries: seq<RestStatus>, draws: nat -> nat,
                          refs: seq<Put>, path: Path, k: int)
    requires Plain(c) && IsLastOverwrite(files, path, k) && path !in Targets(c, refs)
    requires forall j :: 0 <= j < |files| && files[j].path == path ==> !files[j].useRestData
    ensures var puts := Puts(files, entries, draws);
            var content := (if k >= 0 then files[k].content else At(cloned, path)) + Appended(files, path, k + 1);
            && At(GcFold(c, GcFold(c, cloned, puts), refs), path) == content
            && At(PrFold(c, PrFold(c, cloned, puts), refs), path) == content
  {
    hide Targets, GcFold, PrFold, Plain, Appended, AppendedFrom;
    var puts := Puts(files, entries, draws);
    PlainFoldContent(c, cloned, puts, path);
    LastOverwriteIs(files, entries, draws, path, k);
    AppendedIs(files, entries, draws, path, k + 1);
    if k >= 0 {
      PutsAt(files, entries, draws, k);
    }
    PlainFoldsEqual(c, cloned, puts);
    UnnamedPathsKept(c, GcFold(c, cloned, puts), refs, path);
  }

  /* REST outputs. */

  lemma AllApisContent(file: FileSpec, apis: seq<RestApi>, sts: seq<RestStatus>, xs: seq<Exchange>,
                       limit: Option<nat>, draw: nat)
    requires |apis| == |xs| && CheckAll(apis, sts, xs, limit).1.Met? && NoLeftover(apis, sts) && IsAllApisFile(file)
    ensures PutOf(file, CheckAll(apis, sts, xs, limit).0, draw)
            == Put(file.path, Join(Produced(apis, xs), Delimiter(file.source)), false, draw)
  {
    hide CheckAll, NoLeftover;
    AllApisOutputsAreFresh(apis, sts, xs, limit);
  }

  /** What a fresh check puts in the repository. If the conditions are met and nothing was left over, an
      overwriting all-APIs file that nothing later writes to ends up, with either writer and sealed if
      encryption asks for it, with exactly this check's outputs in spec order joined by the delimiter. */
  lemma CommittedFileIsFresh(c: Crypto, cloned: Tree, files: seq<FileSpec>, draws: nat -> nat, refs: seq<Put>,
                             apis: seq<RestApi>, sts: seq<RestStatus>, xs: seq<Exchange>, limit: Option<nat>, i: nat)
    requires |apis| == |xs| && CheckAll(apis, sts, xs, limit).1.Met? && NoLeftover(apis, sts)
    requires i < |files| && IsAllApisFile(files[i]) && !WrittenLater(c, files, refs, i)
    ensures var puts := Puts(files, CheckAll(apis, sts, xs, limit).0, draws);
            var content := Join(Produced(apis, xs), Delimiter(files[i].source));
            && FileIs(c, files, draws, GcFold(c, GcFold(c, cloned, puts), refs), i, content)
            && FileIs(c, files, draws, PrFold(c, PrFold(c, cloned, puts), refs), i, content)
  {
    hide CheckAll, NoLeftover, Produced, Outputs, Join, GcFold, PrFold, FileIs, WrittenLater, IsAllApisFile;
    AllApisContent(files[i], apis, sts, xs, limit, draws(i));
    AllApisFileOverwrites(files[i]);
    SettledFileStays(c, cloned, files, CheckAll(apis, sts, xs, limit).0, draws, refs, i);
  }

  lemma AllApisFileOverwrites(file: FileSpec)
    requires IsAllApisFile(file)
    ensures !file.append
  {
  }

  /** Spelled out: what this check's calls produced stands in the file in the order of the spec, with the
      delimiter, a newline if the file names none, on either side of each output but at the ends. */
  lemma CommittedFileInOrder(c: Crypto, cloned: Tree, files: seq<FileSpec>, draws: nat -> nat, refs: seq<Put>,
                             apis: seq<RestApi>, sts: seq<RestStatus>, xs: seq<Exchange>, limit: Option<nat>, i: nat,
                             before: seq<string>, output: string, after: seq<string>)
    requires |apis| == |xs| && CheckAll(apis, sts, xs, limit).1.Met? && NoLeftover(apis, sts)
    requires i < |files| && IsAllApisFile(files[i]) && !WrittenLater(c, files, refs, i)
    requires Produced(apis, xs) == before + [output] + after && before != [] && after != []
    ensures var puts := Puts(files, CheckAll(apis, sts, xs, limit).0, draws);
            var d := if files[i].source.delimiter == "" then "\n" else files[i].source.delimiter;
            var content := Join(before, d) + d + output + d + Join(after, d);
            && FileIs(c, files, draws, GcFold(c, GcFold(c, cloned, puts), refs), i, content)
            && FileIs(c, files, draws, PrFold(c, PrFold(c, cloned, puts), refs), i, content)
  {
    hide CheckAll, NoLeftover, Produced, Join, GcFold, PrFold, FileIs, WrittenLater, IsAllApisFile;
    CommittedFileIsFresh(c, cloned, files, draws, refs, apis, sts, xs, limit, i);
    JoinAround(before, output, after, Delimiter(files[i].source));
  }

  /** A file that names an API holds the output of this check's call to the first API of that name. */
  lemma CommittedNamedFileIsFresh(c: Crypto, cloned: Tree, files: seq<FileSpec>, draws: nat -> nat, refs: seq<Put>,
                                  apis: seq<RestApi>, sts: seq<RestStatus>, xs: seq<Exchange>, limit: Option<nat>,
                                  i: nat, k: nat)
    requires |apis| == |xs| && CheckAll(apis, sts, xs, limit).1.Met?
    requires i < |files| && files[i].useRestData && !files[i].append && !WrittenLater(c, files, refs, i)
    requires k < |apis| && files[i].source.restName == apis[k].name != "" && apis[k].parsing
    requires forall j :: 0 <= j < k ==> apis[j].name != apis[k].name
    requires xs[k].response.Answer? && xs[k].response.parse.Extracted? && xs[k].response.parse.output != ""
    ensures var puts := Puts(files, CheckAll(apis, sts, xs, limit).0, draws);
            && FileIs(c, files, draws, GcFold(c, GcFold(c, cloned, puts), refs), i, xs[k].response.parse.output)
            && FileIs(c, files, draws, PrFold(c, PrFold(c, cloned, puts), refs), i, xs[k].response.parse.output)
  {
    hide CheckAll, GcFold, PrFold, FileIs, WrittenLater, Named;
    var entries := CheckAll(apis, sts, xs, limit).0;
    forall j | 0 <= j < |apis| ensures entries[j].name == apis[j].name {
      MetIsFresh(apis, sts, xs, j, limit);
    }
    MetIsFresh(apis, sts, xs, k, limit);
    NamedAt(entries, apis[k].name, k);
    JoinOne(xs[k].response.parse.output, Delimiter(files[i].source));
    SettledFileStays(c, cloned, files, entries, draws, refs, i);
  }
}
