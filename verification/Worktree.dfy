/** The two writers that turn spec.files and resource references into the tree of a commit, one in
    the GitCommit controller and one in the PullRequest controller.

    Paths are clean relative paths. Encryption is an oracle with a random draw per call. */
module Worktree {
  import opened Wrappers
  import opened Api
  import opened RestApis
  import opened Text

  type Path = string
  type Bytes = string
  type Tree = map<Path, Bytes>

  datatype Encryption = Encryption(enabled: bool, extension: string)

  datatype Cipher = Cipher(enc: (nat, Bytes) -> Bytes, dec: Bytes -> Option<Bytes>)

  ghost predicate Inverts(c: Cipher) {
    forall n, d :: c.dec(c.enc(n, d)) == Some(d)
  }

  // The decryptor refuses a ciphertext with anything in front of it, as age does.
  ghost predicate RefusesPrefix(c: Cipher) {
    forall a, n, d :: a != "" ==> c.dec(a + c.enc(n, d)) == None
  }

  /** What a writer needs to know about encryption: the configuration, whether the recipients can
      be resolved and parsed, and the cipher. */
  datatype Crypto = Crypto(config: Option<Encryption>, usable: bool, cipher: Cipher)

  function Extension(config: Option<Encryption>): string {
    if config.Some? && config.value.extension != "" then config.value.extension else ".age"
  }

  predicate ShouldEncrypt(path: Path, config: Option<Encryption>) {
    config.Some? && config.value.enabled && !HasSuffix(path, Extension(config))
  }

  function Target(path: Path, config: Option<Encryption>): Path {
    if ShouldEncrypt(path, config) then path + Extension(config) else path
  }

  /** Where a file goes and whether it is encrypted: not at all without an enabled configuration, nor if the
      path has the extension already; else at the path with the extension, ".age" unless configured. */
  lemma TargetIs(path: Path, config: Option<Encryption>)
    ensures config.None? || !config.value.enabled ==> Target(path, config) == path && !ShouldEncrypt(path, config)
    ensures config.Some? && config.value.enabled ==>
              var ext := if config.value.extension == "" then ".age" else config.value.extension;
              && (ShouldEncrypt(path, config) <==> |path| < |ext| || path[|path| - |ext|..] != ext)
              && Target(path, config) == if ShouldEncrypt(path, config) then path + ext else path
  {
  }

  /** Encrypting never targets a path that would be encrypted again. */
  lemma TargetIsStable(path: Path, config: Option<Encryption>)
    ensures Target(Target(path, config), config) == Target(path, config)
  {
    var ext := Extension(config);
    assert (path + ext)[|path + ext| - |ext|..] == ext;
  }

  // A file whose content has been settled. The nonce is what the cipher draws for it.
  datatype Put = Put(path: Path, content: Bytes, append: bool, nonce: nat)

  function At(tree: Tree, path: Path): Bytes {
    if path in tree then tree[path] else ""
  }

  function Sealed(c: Crypto, put: Put, content: Bytes): Bytes {
    if ShouldEncrypt(put.path, c.config) then c.cipher.enc(put.nonce, content) else content
  }

  // GitCommit seals the new content and appends it to what is at the target.
  function GcPut(c: Crypto, tree: Tree, put: Put): Tree {
    var target := Target(put.path, c.config);
    var sealed := Sealed(c, put, put.content);
    tree[target := if put.append then At(tree, target) + sealed else sealed]
  }

  // PullRequest appends to what is at the plain path and seals the whole.
  function PrPut(c: Crypto, tree: Tree, put: Put): Tree {
    tree[Target(put.path, c.config) := PrContent(c, tree, put)]
  }

  function PrContent(c: Crypto, tree: Tree, put: Put): Bytes {
    Sealed(c, put, if put.append then At(tree, put.path) + put.content else put.content)
  }

  function GcFold(c: Crypto, tree: Tree, puts: seq<Put>): Tree {
    if puts == [] then tree else GcPut(c, GcFold(c, tree, puts[..|puts| - 1]), puts[|puts| - 1])
  }

  function PrFold(c: Crypto, tree: Tree, puts: seq<Put>): Tree {
    if puts == [] then tree else PrPut(c, PrFold(c, tree, puts[..|puts| - 1]), puts[|puts| - 1])
  }

  function Targets(c: Crypto, puts: seq<Put>): set<Path> {
    if puts == [] then {}
    else Targets(c, puts[..|puts| - 1]) + {Target(puts[|puts| - 1].path, c.config)}
  }

  lemma FoldStep(c: Crypto, tree: Tree, puts: seq<Put>, i: nat)
    requires i < |puts|
    ensures GcFold(c, tree, puts[..i + 1]) == GcPut(c, GcFold(c, tree, puts[..i]), puts[i])
    ensures PrFold(c, tree, puts[..i + 1]) == PrPut(c, PrFold(c, tree, puts[..i]), puts[i])
  {
    assert puts[..i + 1][..i] == puts[..i];
  }

  lemma {:induction false} FoldConcat(c: Crypto, tree: Tree, a: seq<Put>, b: seq<Put>)
    ensures GcFold(c, tree, a + b) == GcFold(c, GcFold(c, tree, a), b)
    ensures PrFold(c, tree, a + b) == PrFold(c, PrFold(c, tree, a), b)
  {
    if b == [] {
      assert a + b == a;
    } else {
      assert (a + b)[..|a + b| - 1] == a + b[..|b| - 1];
      FoldConcat(c, tree, a, b[..|b| - 1]);
    }
  }

  /* spec.files */

  datatype FileSpec = FileSpec(path: Path, content: Bytes, useRestData: bool, source: FileSource, append: bool)

  function Settled(file: FileSpec, entries: seq<RestStatus>): Bytes {
    if file.useRestData then Content(file.source, entries) else file.content
  }

  predicate Writable(c: Crypto, file: FileSpec, entries: seq<RestStatus>) {
    && (file.useRestData ==> Settled(file, entries) != "")
    && (ShouldEncrypt(file.path, c.config) ==> c.usable)
  }

  predicate AllWritable(c: Crypto, files: seq<FileSpec>, entries: seq<RestStatus>) {
    forall i :: 0 <= i < |files| ==> Writable(c, files[i], entries)
  }

  // draws(i) is what the cipher draws for file i.
  function Puts(files: seq<FileSpec>, entries: seq<RestStatus>, draws: nat -> nat): (r: seq<Put>)
    ensures |r| == |files|
  {
    if files == [] then []
    else
      var n := |files| - 1;
      Puts(files[..n], entries, draws) + [PutOf(files[n], entries, draws(n))]
  }

  function PutOf(file: FileSpec, entries: seq<RestStatus>, draw: nat): Put {
    Put(file.path, Settled(file, entries), file.append, draw)
  }

  lemma {:induction false} PutsAt(files: seq<FileSpec>, entries: seq<RestStatus>, draws: nat -> nat, i: nat)
    requires i < |files|
    ensures Puts(files, entries, draws)[i] == PutOf(files[i], entries, draws(i))
  {
    if i < |files| - 1 {
      PutsAt(files[..|files| - 1], entries, draws, i);
    }
  }

  // The temporary directory and the index of its repository; a commit takes the index.
  class Dir {
    var files: Tree
    var index: Tree

    constructor (files: Tree)
      ensures this.files == files == index
    {
      this.files, index := files, files;
    }

    method Add(path: Path)
      requires path in files
      modifies this`index
      ensures index == old(index)[path := files[path]]
    {
      index := index[path := files[path]];
    }
  }

  /** One file, as performGitCommit writes and stages it. */
  method GcWriteFile(dir: Dir, c: Crypto, file: FileSpec, entries: seq<RestStatus>, draw: nat) returns (failed: bool)
    requires dir.index == dir.files
    modifies dir
    ensures !failed <==> Writable(c, file, entries)
    ensures !failed ==> dir.index == dir.files == GcPut(c, old(dir.files), PutOf(file, entries, draw))
  {
    var content := file.content;
    if file.useRestData {
      content := BuildFileContent(file.source, entries);
      if |content| == 0 {
        return true;
      }
    }
    var target := file.path;
    if ShouldEncrypt(file.path, c.config) {
      if !c.usable {
        return true;
      }
      content := c.cipher.enc(draw, content);
      target := file.path + Extension(c.config);
    }
    if file.append {
      content := At(dir.files, target) + content;
    }
    dir.files := dir.files[target := content];
    dir.Add(target);
    failed := false;
  }

  method GcWriteFiles(dir: Dir, c: Crypto, files: seq<FileSpec>, entries: seq<RestStatus>, draws: nat -> nat)
    returns (failed: bool)
    requires dir.index == dir.files
    modifies dir
    ensures !failed <==> AllWritable(c, files, entries)
    ensures !failed ==> dir.index == dir.files == GcFold(c, old(dir.files), Puts(files, entries, draws))
  {
    hide Writable, Settled, GcPut, ShouldEncrypt;
    ghost var puts := Puts(files, entries, draws);
    for i := 0 to |files|
      invariant forall j :: 0 <= j < i ==> Writable(c, files[j], entries)
      invariant dir.index == dir.files == GcFold(c, old(dir.files), puts[..i])
    {
      failed := GcWriteFile(dir, c, files[i], entries, draws(i));
      if failed {
        return;
      }
      PutsAt(files, entries, draws, i);
      FoldStep(c, old(dir.files), puts, i);
    }
    assert puts[..|files|] == puts;
    failed := false;
  }

  /** One file, as createPullRequest writes and stages it. */
  method PrWriteFile(dir: Dir, c: Crypto, file: FileSpec, entries: seq<RestStatus>, draw: nat) returns (failed: bool)
    requires dir.index == dir.files
    modifies dir
    ensures !failed <==> Writable(c, file, entries)
    ensures !failed ==> dir.index == dir.files == PrPut(c, old(dir.files), PutOf(file, entries, draw))
  {
    var content := file.content;
    if file.useRestData {
      content := BuildFileContent(file.source, entries);
      if |content| == 0 {
        return true;
      }
    }
    if file.append {
      content := At(dir.files, file.path) + content;
    }
    var target := file.path;
    if ShouldEncrypt(file.path, c.config) {
      if !c.usable {
        return true;
      }
      content := c.cipher.enc(draw, content);
      target := file.path + Extension(c.config);
    }
    dir.files := dir.files[target := content];
    dir.Add(target);
    failed := false;
  }

  method PrWriteFiles(dir: Dir, c: Crypto, files: seq<FileSpec>, entries: seq<RestStatus>, draws: nat -> nat)
    returns (failed: bool)
    requires dir.index == dir.files
    modifies dir
    ensures !failed <==> AllWritable(c, files, entries)
    ensures !failed ==> dir.index == dir.files == PrFold(c, old(dir.files), Puts(files, entries, draws))
  {
    hide Writable, Settled, PrPut, ShouldEncrypt;
    ghost var puts := Puts(files, entries, draws);
    for i := 0 to |files|
      invariant forall j :: 0 <= j < i ==> Writable(c, files[j], entries)
      invariant dir.index == dir.files == PrFold(c, old(dir.files), puts[..i])
    {
      failed := PrWriteFile(dir, c, files[i], entries, draws(i));
      if failed {
        return;
      }
      PutsAt(files, entries, draws, i);
      FoldStep(c, old(dir.files), puts, i);
    }
    assert puts[..|files|] == puts;
    failed := false;
  }

  /* Without encryption: what ends up at each path. */

  ghost predicate Plain(c: Crypto) {
    c.config.None? || !c.config.value.enabled
  }

  // The index of the last overwrite of the path, or -1.
  function LastOverwrite(puts: seq<Put>, path: Path): (k: int)
    ensures -1 <= k < |puts|
    ensures k >= 0 ==> puts[k].path == path && !puts[k].append
    ensures forall j :: k < j < |puts| && puts[j].path == path ==> puts[j].append
  {
    if puts == [] then -1
    else
      var n := |puts| - 1;
      if puts[n].path == path && !puts[n].append then n else LastOverwrite(puts[..n], path)
  }

  // Everything appended to the path from index k on, in order.
  function AppendedFrom(puts: seq<Put>, path: Path, k: nat): Bytes
    requires k <= |puts|
    decreases |puts| - k
  {
    if k == |puts| then ""
    else (if puts[k].path == path && puts[k].append then puts[k].content else "") + AppendedFrom(puts, path, k + 1)
  }

  lemma {:induction false} AppendedFromSnoc(puts: seq<Put>, path: Path, k: nat)
    requires k < |puts|
    ensures var n := |puts| - 1;
            AppendedFrom(puts, path, k) == AppendedFrom(puts[..n], path, k) + AppendedFrom(puts, path, n)
    decreases |puts| - k
  {
    if k < |puts| - 1 {
      AppendedFromSnoc(puts, path, k + 1);
    }
  }

  // The last overwrite of the path, or what was cloned, followed by all later appends in order.
  function Expected(tree: Tree, puts: seq<Put>, path: Path): Bytes {
    var k := LastOverwrite(puts, path);
    (if k >= 0 then puts[k].content else At(tree, path)) + AppendedFrom(puts, path, k + 1)
  }

  lemma ExpectedSnoc(tree: Tree, puts: seq<Put>, path: Path)
    requires puts != []
    ensures var n := |puts| - 1;
            Expected(tree, puts, path)
            == if puts[n].path != path then Expected(tree, puts[..n], path)
               else if puts[n].append then Expected(tree, puts[..n], path) + puts[n].content
               else puts[n].content
  {
    var n, k := |puts| - 1, LastOverwrite(puts, path);
    if k < n {
      AppendedFromSnoc(puts, path, k + 1);
      var start := if k >= 0 then puts[k].content else At(tree, path);
      var before, last := AppendedFrom(puts[..n], path, k + 1), AppendedFrom(puts, path, n);
      assert start + (before + last) == (start + before) + last;
      assert last == (if puts[n].path == path then puts[n].content else "") + "";
      assert puts[n].content + "" == puts[n].content;
    } else {
      assert puts[n].content + "" == puts[n].content;
    }
  }

  /** Without encryption a path ends up with exactly the content its files call for. */
  lemma {:induction false} PlainFoldContent(c: Crypto, tree: Tree, puts: seq<Put>, path: Path)
    requires Plain(c)
    ensures At(GcFold(c, tree, puts), path) == Expected(tree, puts, path)
  {
    if puts == [] {
      assert At(tree, path) + "" == At(tree, path);
    } else {
      PlainFoldContent(c, tree, puts[..|puts| - 1], path);
      ExpectedSnoc(tree, puts, path);
    }
  }

  /** A path no file names is left as cloned. */
  lemma {:induction false} UnnamedPathsKept(c: Crypto, tree: Tree, puts: seq<Put>, path: Path)
    requires path !in Targets(c, puts)
    ensures path in GcFold(c, tree, puts) <==> path in tree
    ensures At(GcFold(c, tree, puts), path) == At(tree, path) == At(PrFold(c, tree, puts), path)
    ensures path in PrFold(c, tree, puts) <==> path in tree
  {
    if puts != [] {
      UnnamedPathsKept(c, tree, puts[..|puts| - 1], path);
    }
  }

  /** With either writer, an overwrite that nothing later targets is what the path ends up with. */
  lemma LastOverwriteStays(c: Crypto, tree: Tree, puts: seq<Put>, i: nat)
    requires i < |puts| && !puts[i].append && Target(puts[i].path, c.config) !in Targets(c, puts[i + 1..])
    ensures At(GcFold(c, tree, puts), Target(puts[i].path, c.config)) == Sealed(c, puts[i], puts[i].content)
    ensures At(PrFold(c, tree, puts), Target(puts[i].path, c.config)) == Sealed(c, puts[i], puts[i].content)
  {
    hide Target, Sealed, Targets;
    var first, later := puts[..i + 1], puts[i + 1..];
    FoldStep(c, tree, puts, i);
    assert puts == first + later;
    FoldConcat(c, tree, first, later);
    UnnamedPathsKept(c, GcFold(c, tree, first), later, Target(puts[i].path, c.config));
    UnnamedPathsKept(c, PrFold(c, tree, first), later, Target(puts[i].path, c.config));
  }

  /* The two writers compared. */

  lemma {:induction false} PlainFoldsEqual(c: Crypto, tree: Tree, puts: seq<Put>)
    requires Plain(c)
    ensures GcFold(c, tree, puts) == PrFold(c, tree, puts)
  {
    if puts != [] {
      PlainFoldsEqual(c, tree, puts[..|puts| - 1]);
    }
  }

  // Equal, or ciphertexts of the same content.
  ghost predicate Alike(c: Crypto, a: Bytes, b: Bytes) {
    a == b || (c.cipher.dec(a).Some? && c.cipher.dec(a) == c.cipher.dec(b))
  }

  ghost predicate TreesAlike(c: Crypto, t: Tree, u: Tree) {
    t.Keys == u.Keys && forall p :: p in t ==> Alike(c, t[p], u[p])
  }

  lemma OverwritesAlike(c: Crypto, t: Tree, u: Tree, put: Put, nonce: nat)
    requires Inverts(c.cipher) && TreesAlike(c, t, u) && !put.append
    ensures TreesAlike(c, GcPut(c, t, put), PrPut(c, u, put.(nonce := nonce)))
  {
    assert c.cipher.dec(c.cipher.enc(put.nonce, put.content)) == Some(put.content);
    assert c.cipher.dec(c.cipher.enc(nonce, put.content)) == Some(put.content);
  }

  /** The GitCommit and PullRequest writers agree, up to decryption and whatever each draws, when
      encryption is off or every file is an overwrite. */
  lemma {:induction false} WritersAgree(c: Crypto, tree: Tree, files: seq<FileSpec>, entries: seq<RestStatus>,
                                        gcDraws: nat -> nat, prDraws: nat -> nat)
    requires Inverts(c.cipher)
    requires Plain(c) || forall i :: 0 <= i < |files| ==> !files[i].append
    ensures TreesAlike(c, GcFold(c, tree, Puts(files, entries, gcDraws)),
                       PrFold(c, tree, Puts(files, entries, prDraws)))
  {
    var gc, pr := Puts(files, entries, gcDraws), Puts(files, entries, prDraws);
    if Plain(c) {
      forall i | 0 <= i < |gc| ensures pr[i] == gc[i].(nonce := pr[i].nonce) {
        PutsAt(files, entries, gcDraws, i);
        PutsAt(files, entries, prDraws, i);
      }
      PlainFoldsEqual(c, tree, gc);
      NoncesUnused(c, tree, gc, pr);
    } else if files != [] {
      var n := |files| - 1;
      WritersAgree(c, tree, files[..n], entries, gcDraws, prDraws);
      OverwritesAlike(c, GcFold(c, tree, gc[..n]), PrFold(c, tree, pr[..n]), gc[n], pr[n].nonce);
    }
  }

  lemma {:induction false} NoncesUnused(c: Crypto, tree: Tree, puts: seq<Put>, others: seq<Put>)
    requires Plain(c) && |puts| == |others|
    requires forall i :: 0 <= i < |puts| ==> others[i] == puts[i].(nonce := others[i].nonce)
    ensures PrFold(c, tree, puts) == PrFold(c, tree, others)
  {
    if puts != [] {
      NoncesUnused(c, tree, puts[..|puts| - 1], others[..|puts| - 1]);
    }
  }

  /** Appending under encryption is where the writers part. From the same tree, an encrypted append
      comes out alike exactly when there is nothing at the target and nothing at the plain path. */
  lemma EncryptedAppendAgreesIff(c: Crypto, tree: Tree, put: Put, nonce: nat)
    requires Inverts(c.cipher) && RefusesPrefix(c.cipher)
    requires put.append && ShouldEncrypt(put.path, c.config)
    ensures TreesAlike(c, GcPut(c, tree, put), PrPut(c, tree, put.(nonce := nonce)))
            <==> At(tree, Target(put.path, c.config)) == "" && At(tree, put.path) == ""
  {
    var target := Target(put.path, c.config);
    var old', plain := At(tree, target), At(tree, put.path);
    var gc, pr := GcPut(c, tree, put), PrPut(c, tree, put.(nonce := nonce));
    var sealed, whole := c.cipher.enc(put.nonce, put.content), c.cipher.enc(nonce, plain + put.content);
    assert gc[target] == old' + sealed && pr[target] == whole;
    assert c.cipher.dec(whole) == Some(plain + put.content);
    assert c.cipher.dec(sealed) == Some(put.content);
    if old' == "" {
      assert old' + sealed == sealed;
      assert plain == "" <==> |plain + put.content| == |put.content|;
      assert plain == "" ==> plain + put.content == put.content;
      assert TreesAlike(c, gc, pr) ==> Alike(c, gc[target], pr[target]);
    } else {
      assert c.cipher.dec(old' + sealed) == None;
      assert !Alike(c, gc[target], pr[target]);
      assert target in gc;
    }
  }
}
