/** Files taken from referenced cluster resources, and what the random iteration order over a
    resource's data map can do to the tree. */
module ResourceRefs {
  import opened Wrappers
  import opened Worktree
  import opened Text

  datatype Strategy = Dump | Fields | SingleField(key: string, fileName: string) | SingleFieldUnset | Unsupported

  // fallback is the kind and name of the resource, the base path of a PullRequest that gives none.
  datatype ResourceRef = ResourceRef(strategy: Strategy, path: Path, append: bool, fallback: Path)

  // The data of a resource, if it is a map, and its other top-level fields.
  datatype Object = Object(yaml: string, data: Option<map<string, string>>, top: map<string, string>)

  // A list of the keys of a map in the order some iteration visits them.
  predicate IsOrder(order: seq<string>, data: map<string, string>) {
    && (forall k :: k in data ==> k in order)
    && (forall k :: k in order ==> k in data)
    && forall i, j :: 0 <= i < j < |order| ==> order[i] != order[j]
  }

  lemma {:induction false} OrderExists(data: map<string, string>)
    ensures exists order :: IsOrder(order, data)
    decreases |data|
  {
    if data == map[] {
      assert IsOrder([], data);
    } else {
      var k :| k in data;
      OrderExists(data - {k});
      var order :| IsOrder(order, data - {k});
      assert IsOrder(order + [k], data);
    }
  }

  function TrimSlash(path: Path): Path {
    if HasSuffix(path, "/") then path[..|path| - 1] else path
  }

  function FieldPut(prefix: Path, data: map<string, string>, key: string, append: bool, draw: Path -> nat): Put
    requires key in data
  {
    Put(prefix + key, data[key], append, draw(prefix + key))
  }

  function FieldPuts(prefix: Path, data: map<string, string>, order: seq<string>, append: bool, draw: Path -> nat)
    : (r: seq<Put>)
    requires forall k :: k in order ==> k in data
    ensures |r| == |order|
  {
    if order == [] then []
    else
      var n := |order| - 1;
      FieldPuts(prefix, data, order[..n], append, draw) + [FieldPut(prefix, data, order[n], append, draw)]
  }

  // What is read for a reference: the object, if it could be fetched, the order in which its data is
  // visited, and what the cipher draws for each path.
  datatype Fetched = Fetched(obj: Option<Object>, order: seq<string>, draw: Path -> nat)

  type Reading = f: Fetched | f.obj.Some? && f.obj.value.data.Some? ==> IsOrder(f.order, f.obj.value.data.value)
    witness Fetched(None, [], (p: Path) => 0)

  // The files GitCommit makes of a reference, or None if it cannot.
  function GcRefPuts(ref: ResourceRef, f: Reading): Option<seq<Put>> {
    if f.obj.None? then None
    else
      var obj, dir := f.obj.value, TrimSlash(ref.path) + "/";
      match ref.strategy
      case Dump => Some([Put(ref.path, obj.yaml, false, f.draw(ref.path))])
      case Fields =>
        if obj.data.Some? then Some(FieldPuts(dir, obj.data.value, f.order, false, f.draw)) else None
      case SingleField(key, fileName) =>
        if obj.data.None? || key !in obj.data.value then None
        else
          var path := if ref.append then ref.path else dir + if fileName == "" then key else fileName;
          Some([Put(path, obj.data.value[key], false, f.draw(path))])
      case _ => None
  }

  /** Whatever the write mode of a reference, GitCommit makes overwrites of it: the mode decides the
      path of a single field and nothing else. */
  lemma GcRefsOverwrite(ref: ResourceRef, f: Reading)
    ensures GcRefPuts(ref, f).Some? ==> forall put :: put in GcRefPuts(ref, f).value ==> !put.append
    ensures !ref.strategy.SingleField? ==> GcRefPuts(ref, f) == GcRefPuts(ref.(append := !ref.append), f)
  {
    if f.obj.Some? && ref.strategy.Fields? && f.obj.value.data.Some? {
      FieldPutsMode(TrimSlash(ref.path) + "/", f.obj.value.data.value, f.order, false, f.draw);
    }
  }

  lemma {:induction false} FieldPutsMode(prefix: Path, data: map<string, string>, order: seq<string>, append: bool,
                                         draw: Path -> nat)
    requires forall k :: k in order ==> k in data
    ensures forall put :: put in FieldPuts(prefix, data, order, append, draw) ==> put.append == append
  {
    if order != [] {
      FieldPutsMode(prefix, data, order[..|order| - 1], append, draw);
    }
  }

  // The loop over the data, the same in both controllers.
  method ExtractFields(prefix: Path, data: map<string, string>, order: seq<string>, append: bool, draw: Path -> nat)
    returns (puts: seq<Put>)
    requires IsOrder(order, data)
    ensures puts == FieldPuts(prefix, data, order, append, draw)
  {
    puts := [];
    for i := 0 to |order|
      invariant puts == FieldPuts(prefix, data, order[..i], append, draw)
    {
      assert order[..i + 1][..i] == order[..i];
      puts := puts + [Put(prefix + order[i], data[order[i]], append, draw(prefix + order[i]))];
    }
    assert order[..|order|] == order;
  }

  /** GitCommit's processResourceRef. */
  method GcProcessResourceRef(ref: ResourceRef, f: Reading) returns (files: Option<seq<Put>>)
    ensures files == GcRefPuts(ref, f)
  {
    if f.obj.None? {
      return None;
    }
    var obj := f.obj.value;
    match ref.strategy {
      case Dump =>
        files := Some([Put(ref.path, obj.yaml, false, f.draw(ref.path))]);
      case Fields =>
        if obj.data.None? {
          return None;
        }
        var puts := ExtractFields(TrimSlash(ref.path) + "/", obj.data.value, f.order, false, f.draw);
        files := Some(puts);
      case SingleField(key, fileName) =>
        if obj.data.None? || key !in obj.data.value {
          return None;
        }
        var path := ref.path;
        if !ref.append {
          var name := fileName;
          if name == "" {
            name := key;
          }
          path := TrimSlash(ref.path) + "/" + name;
        }
        files := Some([Put(path, obj.data.value[key], false, f.draw(path))]);
      case SingleFieldUnset => files := None;
      case Unsupported => files := None;
    }
  }

  /** One file of a reference, as performGitCommit writes it. The append branch inputs the plain path
      and puts a newline in between. */
  method GcWriteRefFile(dir: Dir, c: Crypto, put: Put) returns (failed: bool)
    requires dir.index == dir.files
    modifies dir
    ensures !failed <==> (ShouldEncrypt(put.path, c.config) ==> c.usable)
    ensures !failed ==> dir.index == dir.files
    ensures !failed && !put.append ==> dir.files == GcPut(c, old(dir.files), put)
  {
    var content := put.content;
    if put.append && put.path in dir.files {
      content := dir.files[put.path] + "\n" + content;
    }
    if ShouldEncrypt(put.path, c.config) && !c.usable {
      return true;
    }
    dir.files := dir.files[Target(put.path, c.config) := Sealed(c, put, content)];
    dir.Add(Target(put.path, c.config));
    failed := false;
  }

  /** Since its files are overwrites only, the append branch is never taken and the loop over the files
      of a reference is the overwriting fold. */
  method GcWriteRef(dir: Dir, c: Crypto, puts: seq<Put>) returns (failed: bool)
    requires dir.index == dir.files && forall put :: put in puts ==> !put.append
    modifies dir
    ensures !failed <==> forall put :: put in puts && ShouldEncrypt(put.path, c.config) ==> c.usable
    ensures !failed ==> dir.index == dir.files == GcFold(c, old(dir.files), puts)
  {
    for i := 0 to |puts|
      invariant forall put :: put in puts[..i] && ShouldEncrypt(put.path, c.config) ==> c.usable
      invariant dir.index == dir.files == GcFold(c, old(dir.files), puts[..i])
    {
      failed := GcWriteRefFile(dir, c, puts[i]);
      if failed {
        return;
      }
      FoldStep(c, old(dir.files), puts, i);
    }
    assert puts[..|puts|] == puts;
    failed := false;
  }

  /* PullRequest's own versions. */

  function BasePath(ref: ResourceRef): Path {
    if ref.path == "" then ref.fallback else ref.path
  }

  // filepath.Join(filepath.Dir(path), fileName) for clean paths
  function Sibling(path: Path, fileName: string): Path {
    path[..LastSlash(path) + 1] + fileName
  }

  // The files PullRequest makes of a reference. They follow its write mode, a dump gets an extension,
  // and without a data map a single field comes from the top of the object.
  function PrRefPuts(ref: ResourceRef, f: Reading): Option<seq<Put>> {
    if f.obj.None? then None
    else
      var obj, base := f.obj.value, BasePath(ref);
      match ref.strategy
      case Dump => Some([Put(base + ".yaml", obj.yaml, ref.append, f.draw(base + ".yaml"))])
      case Fields =>
        if obj.data.Some? then Some(FieldPuts(base + "/", obj.data.value, f.order, ref.append, f.draw)) else None
      case SingleField(key, fileName) =>
        var values := if obj.data.Some? then obj.data.value else obj.top;
        if key !in values then None
        else
          var path := if fileName == "" then base else Sibling(base, fileName);
          Some([Put(path, values[key], ref.append, f.draw(path))])
      case _ => None
  }

  lemma PrRefsFollowMode(ref: ResourceRef, f: Reading)
    ensures PrRefPuts(ref, f).Some? ==> forall put :: put in PrRefPuts(ref, f).value ==> put.append == ref.append
  {
    if f.obj.Some? && ref.strategy.Fields? && f.obj.value.data.Some? {
      FieldPutsMode(BasePath(ref) + "/", f.obj.value.data.value, f.order, ref.append, f.draw);
    }
  }

  /** PullRequest's processResourceRef. */
  method PrProcessResourceRef(ref: ResourceRef, f: Reading) returns (files: Option<seq<Put>>)
    ensures files == PrRefPuts(ref, f)
  {
    if f.obj.None? {
      return None;
    }
    var obj, base := f.obj.value, ref.path;
    if base == "" {
      base := ref.fallback;
    }
    match ref.strategy {
      case Dump =>
        files := Some([Put(base + ".yaml", obj.yaml, ref.append, f.draw(base + ".yaml"))]);
      case Fields =>
        if obj.data.None? {
          return None;
        }
        var puts := ExtractFields(base + "/", obj.data.value, f.order, ref.append, f.draw);
        files := Some(puts);
      case SingleField(key, fileName) =>
        var values := if obj.data.Some? then obj.data.value else obj.top;
        if key !in values {
          return None;
        }
        var path := base;
        if fileName != "" {
          path := Sibling(base, fileName);
        }
        files := Some([Put(path, values[key], ref.append, f.draw(path))]);
      case SingleFieldUnset => files := None;
      case Unsupported => files := None;
    }
  }

  method PrWriteRefFile(dir: Dir, c: Crypto, put: Put) returns (failed: bool)
    requires dir.index == dir.files
    modifies dir
    ensures !failed <==> (ShouldEncrypt(put.path, c.config) ==> c.usable)
    ensures !failed ==> dir.index == dir.files == PrPut(c, old(dir.files), put)
  {
    var content := put.content;
    if put.append {
      content := At(dir.files, put.path) + content;
    }
    var target := put.path;
    if ShouldEncrypt(put.path, c.config) {
      if !c.usable {
        return true;
      }
      content := c.cipher.enc(put.nonce, content);
      target := put.path + Extension(c.config);
    }
    dir.files := dir.files[target := content];
    dir.Add(target);
    failed := false;
  }

  method PrWriteRef(dir: Dir, c: Crypto, puts: seq<Put>) returns (failed: bool)
    requires dir.index == dir.files
    modifies dir
    ensures !failed <==> forall put :: put in puts && ShouldEncrypt(put.path, c.config) ==> c.usable
    ensures !failed ==> dir.index == dir.files == PrFold(c, old(dir.files), puts)
  {
    for i := 0 to |puts|
      invariant forall put :: put in puts[..i] && ShouldEncrypt(put.path, c.config) ==> c.usable
      invariant dir.index == dir.files == PrFold(c, old(dir.files), puts[..i])
    {
      failed := PrWriteRefFile(dir, c, puts[i]);
      if failed {
        return;
      }
      FoldStep(c, old(dir.files), puts, i);
    }
    assert puts[..|puts|] == puts;
    failed := false;
  }

  /* What the files of a reference are. */

  lemma {:induction false} FieldPutsAt(prefix: Path, data: map<string, string>, order: seq<string>, append: bool,
                                       draw: Path -> nat, i: nat)
    requires i < |order| && forall k :: k in order ==> k in data
    ensures var put := FieldPuts(prefix, data, order, append, draw)[i];
            put.path == prefix + order[i] && put.content == data[order[i]]
  {
    if i < |order| - 1 {
      FieldPutsAt(prefix, data, order[..|order| - 1], append, draw, i);
    }
  }

  // The directory of a reference with exactly one slash at its end.
  predicate IsDirectory(path: Path, dir: Path) {
    dir == if path != "" && path[|path| - 1] == '/' then path else path + "/"
  }

  lemma TrimmedDirectory(path: Path)
    ensures IsDirectory(path, TrimSlash(path) + "/")
  {
    if HasSuffix(path, "/") {
      assert path[|path| - 1..] == "/" && path == path[..|path| - 1] + path[|path| - 1..];
    } else if path != "" {
      assert path[|path| - 1..] == [path[|path| - 1]];
    }
  }

  /** GitCommit: a dump is the YAML at the path itself; each field is its value at the path, one slash and
      its key, in the order visited; a single field is its value there under its file name, or its key
      without one, and at the path itself if the mode is append. */
  lemma GcRefPutsAre(ref: ResourceRef, f: Reading, i: nat)
    requires GcRefPuts(ref, f).Some? && i < |GcRefPuts(ref, f).value|
    ensures f.obj.Some?
    ensures var put, obj := GcRefPuts(ref, f).value[i], f.obj.value;
            match ref.strategy
            case Dump => i == 0 && put.path == ref.path && put.content == obj.yaml
            case Fields =>
              && obj.data.Some? && |GcRefPuts(ref, f).value| == |f.order| && f.order[i] in obj.data.value
              && put.content == obj.data.value[f.order[i]]
              && exists dir :: IsDirectory(ref.path, dir) && put.path == dir + f.order[i]
            case SingleField(key, fileName) =>
              && i == 0 && obj.data.Some? && key in obj.data.value && put.content == obj.data.value[key]
              && (ref.append ==> put.path == ref.path)
              && (!ref.append && fileName != "" ==>
                   exists dir :: IsDirectory(ref.path, dir) && put.path == dir + fileName)
              && (!ref.append && fileName == "" ==> exists dir :: IsDirectory(ref.path, dir) && put.path == dir + key)
            case _ => false
  {
    TrimmedDirectory(ref.path);
    if ref.strategy.Fields? {
      FieldPutsAt(TrimSlash(ref.path) + "/", f.obj.value.data.value, f.order, false, f.draw, i);
    }
  }

  /** GitCommit has files for a reference exactly when the object could be fetched and has what the strategy
      asks for: one file, or one for each field of its data. */
  lemma GcYieldsIff(ref: ResourceRef, f: Reading)
    ensures GcRefPuts(ref, f).Some? <==>
              && f.obj.Some?
              && match ref.strategy
                 case Dump => true
                 case Fields => f.obj.value.data.Some?
                 case SingleField(key, _) => f.obj.value.data.Some? && key in f.obj.value.data.value
                 case _ => false
    ensures GcRefPuts(ref, f).Some? ==> |GcRefPuts(ref, f).value| == if ref.strategy.Fields? then |f.order| else 1
  {
  }

  // Is the path that of a file of this name beside the base?
  predicate InDirectoryOf(base: Path, fileName: string, path: Path) {
    || ('/' !in base && path == fileName)
    || exists i :: 0 <= i < |base| && base[i] == '/' && '/' !in base[i + 1..] && path == base[..i + 1] + fileName
  }

  lemma SiblingIs(base: Path, fileName: string)
    ensures InDirectoryOf(base, fileName, Sibling(base, fileName))
  {
    var i := LastSlash(base);
    if i >= 0 {
      assert base[i] == '/' && '/' !in base[i + 1..];
    } else {
      assert "" + fileName == fileName;
    }
  }

  /** PullRequest: the base is the path, or kind and name without one. A dump is the YAML at the base with
      ".yaml"; each field is its value at the base, a slash and its key; a single field is its value at the
      base itself, or under its file name in the directory of the base, if it has one. */
  lemma PrRefPutsAre(ref: ResourceRef, f: Reading, i: nat)
    requires PrRefPuts(ref, f).Some? && i < |PrRefPuts(ref, f).value|
    ensures f.obj.Some?
    ensures var put, obj := PrRefPuts(ref, f).value[i], f.obj.value;
            var base := if ref.path != "" then ref.path else ref.fallback;
            match ref.strategy
            case Dump => i == 0 && put.path == base + ".yaml" && put.content == obj.yaml
            case Fields =>
              && obj.data.Some? && |PrRefPuts(ref, f).value| == |f.order| && f.order[i] in obj.data.value
              && put.content == obj.data.value[f.order[i]] && put.path == base + "/" + f.order[i]
            case SingleField(key, fileName) =>
              && i == 0
              && (obj.data.Some? ==> key in obj.data.value && put.content == obj.data.value[key])
              && (obj.data.None? ==> key in obj.top && put.content == obj.top[key])
              && (fileName == "" ==> put.path == base)
              && (fileName != "" ==> InDirectoryOf(base, fileName, put.path))
            case _ => false
  {
    hide Sibling, InDirectoryOf;
    if ref.strategy.SingleField? {
      SiblingIs(BasePath(ref), ref.strategy.fileName);
    }
    if ref.strategy.Fields? {
      FieldPutsAt(BasePath(ref) + "/", f.obj.value.data.value, f.order, ref.append, f.draw, i);
    }
  }

  /** PullRequest looks for a single field at the top of an object that has no data as well. */
  lemma PrYieldsIff(ref: ResourceRef, f: Reading)
    ensures PrRefPuts(ref, f).Some? <==>
              && f.obj.Some?
              && match ref.strategy
                 case Dump => true
                 case Fields => f.obj.value.data.Some?
                 case SingleField(key, _) =>
                   if f.obj.value.data.Some? then key in f.obj.value.data.value else key in f.obj.value.top
                 case _ => false
    ensures PrRefPuts(ref, f).Some? ==> |PrRefPuts(ref, f).value| == if ref.strategy.Fields? then |f.order| else 1
  {
    hide Sibling, BasePath;
  }

  /* Whole lists of references; inputs(i) is what is read for reference i. */

  // The files of all references in order; one that yields none leaves a gap.
  function GcAllPuts(refs: seq<ResourceRef>, inputs: nat -> Reading): seq<Put> {
    if refs == [] then []
    else
      var n := |refs| - 1;
      var last := GcRefPuts(refs[n], inputs(n));
      GcAllPuts(refs[..n], inputs) + if last.Some? then last.value else []
  }

  predicate GcRefWritable(c: Crypto, ref: ResourceRef, f: Reading) {
    var puts := GcRefPuts(ref, f);
    puts.Some? && forall put :: put in puts.value && ShouldEncrypt(put.path, c.config) ==> c.usable
  }

  predicate GcAllRefsWritable(c: Crypto, refs: seq<ResourceRef>, inputs: nat -> Reading) {
    forall i :: 0 <= i < |refs| ==> GcRefWritable(c, refs[i], inputs(i))
  }

  // The files of all references in order; one that yields none leaves a gap.
  function PrAllPuts(refs: seq<ResourceRef>, inputs: nat -> Reading): seq<Put> {
    if refs == [] then []
    else
      var n := |refs| - 1;
      var last := PrRefPuts(refs[n], inputs(n));
      PrAllPuts(refs[..n], inputs) + if last.Some? then last.value else []
  }

  predicate PrRefWritable(c: Crypto, ref: ResourceRef, f: Reading) {
    var puts := PrRefPuts(ref, f);
    puts.Some? && forall put :: put in puts.value && ShouldEncrypt(put.path, c.config) ==> c.usable
  }

  predicate PrAllRefsWritable(c: Crypto, refs: seq<ResourceRef>, inputs: nat -> Reading) {
    forall i :: 0 <= i < |refs| ==> PrRefWritable(c, refs[i], inputs(i))
  }

  lemma NoRefs(c: Crypto, tree: Tree, refs: seq<ResourceRef>, inputs: nat -> Reading)
    requires refs == []
    ensures GcFold(c, tree, GcAllPuts(refs, inputs)) == tree == PrFold(c, tree, PrAllPuts(refs, inputs))
  {
  }

  lemma GcAllPutsStep(refs: seq<ResourceRef>, inputs: nat -> Reading, i: nat)
    requires i < |refs| && GcRefPuts(refs[i], inputs(i)).Some?
    ensures GcAllPuts(refs[..i + 1], inputs) == GcAllPuts(refs[..i], inputs) + GcRefPuts(refs[i], inputs(i)).value
  {
    hide GcRefPuts;
    assert refs[..i + 1][..i] == refs[..i];
  }

  lemma PrAllPutsStep(refs: seq<ResourceRef>, inputs: nat -> Reading, i: nat)
    requires i < |refs| && PrRefPuts(refs[i], inputs(i)).Some?
    ensures PrAllPuts(refs[..i + 1], inputs) == PrAllPuts(refs[..i], inputs) + PrRefPuts(refs[i], inputs(i)).value
  {
    hide PrRefPuts;
    assert refs[..i + 1][..i] == refs[..i];
  }

  method GcWriteRefs(dir: Dir, c: Crypto, refs: seq<ResourceRef>, inputs: nat -> Reading) returns (failed: bool)
    requires dir.index == dir.files
    modifies dir
    ensures !failed <==> GcAllRefsWritable(c, refs, inputs)
    ensures !failed ==> dir.index == dir.files == GcFold(c, old(dir.files), GcAllPuts(refs, inputs))
  {
    hide IsOrder, GcRefPuts, GcPut, GcFold, GcAllPuts, ShouldEncrypt;
    failed := false;
    NoRefs(c, dir.files, refs[..0], inputs);
    for i := 0 to |refs|
      invariant !failed
      invariant forall j :: 0 <= j < i ==> GcRefWritable(c, refs[j], inputs(j))
      invariant dir.index == dir.files == GcFold(c, old(dir.files), GcAllPuts(refs[..i], inputs))
    {
      var puts := GcProcessResourceRef(refs[i], inputs(i));
      if puts.None? {
        return true;
      }
      GcRefsOverwrite(refs[i], inputs(i));
      failed := GcWriteRef(dir, c, puts.value);
      if failed {
        return;
      }
      FoldConcat(c, old(dir.files), GcAllPuts(refs[..i], inputs), puts.value);
      GcAllPutsStep(refs, inputs, i);
    }
    assert refs[..|refs|] == refs;
  }

  method PrWriteRefs(dir: Dir, c: Crypto, refs: seq<ResourceRef>, inputs: nat -> Reading) returns (failed: bool)
    requires dir.index == dir.files
    modifies dir
    ensures !failed <==> PrAllRefsWritable(c, refs, inputs)
    ensures !failed ==> dir.index == dir.files == PrFold(c, old(dir.files), PrAllPuts(refs, inputs))
  {
    hide IsOrder, PrRefPuts, PrPut, PrFold, PrAllPuts, ShouldEncrypt;
    failed := false;
    NoRefs(c, dir.files, refs[..0], inputs);
    for i := 0 to |refs|
      invariant !failed
      invariant forall j :: 0 <= j < i ==> PrRefWritable(c, refs[j], inputs(j))
      invariant dir.index == dir.files == PrFold(c, old(dir.files), PrAllPuts(refs[..i], inputs))
    {
      var puts := PrProcessResourceRef(refs[i], inputs(i));
      if puts.None? {
        return true;
      }
      failed := PrWriteRef(dir, c, puts.value);
      if failed {
        return;
      }
      FoldConcat(c, old(dir.files), PrAllPuts(refs[..i], inputs), puts.value);
      PrAllPutsStep(refs, inputs, i);
    }
    assert refs[..|refs|] == refs;
  }

  /* What a reference leaves. */

  lemma {:induction false} TargetsConcat(c: Crypto, a: seq<Put>, b: seq<Put>)
    ensures Targets(c, a + b) == Targets(c, a) + Targets(c, b)
  {
    if b == [] {
      assert a + b == a;
    } else {
      assert (a + b)[..|a + b| - 1] == a + b[..|b| - 1];
      TargetsConcat(c, a, b[..|b| - 1]);
    }
  }

  lemma NoTargets(c: Crypto)
    ensures Targets(c, []) == {}
  {
  }

  // Does a file of reference k go there?
  predicate GcTargets(c: Crypto, refs: seq<ResourceRef>, inputs: nat -> Reading, k: nat, path: Path)
    requires k < |refs|
  {
    var puts := GcRefPuts(refs[k], inputs(k));
    puts.Some? && path in Targets(c, puts.value)
  }

  predicate PrTargets(c: Crypto, refs: seq<ResourceRef>, inputs: nat -> Reading, k: nat, path: Path)
    requires k < |refs|
  {
    var puts := PrRefPuts(refs[k], inputs(k));
    puts.Some? && path in Targets(c, puts.value)
  }

  // The files after those of the first n references.
  lemma {:induction false} GcLaterPuts(c: Crypto, refs: seq<ResourceRef>, inputs: nat -> Reading, n: nat, path: Path)
    returns (later: seq<Put>)
    requires n <= |refs| && forall k :: n <= k < |refs| ==> !GcTargets(c, refs, inputs, k, path)
    ensures GcAllPuts(refs, inputs) == GcAllPuts(refs[..n], inputs) + later && path !in Targets(c, later)
  {
    hide GcRefPuts, Targets;
    if n == |refs| {
      assert refs[..n] == refs;
      NoTargets(c);
      later := [];
    } else {
      var init, last := refs[..|refs| - 1], |refs| - 1;
      forall k | n <= k < |init| ensures !GcTargets(c, init, inputs, k, path) {
        assert !GcTargets(c, refs, inputs, k, path);
      }
      var before := GcLaterPuts(c, init, inputs, n, path);
      assert init[..n] == refs[..n] && !GcTargets(c, refs, inputs, last, path);
      var more := if GcRefPuts(refs[last], inputs(last)).Some? then GcRefPuts(refs[last], inputs(last)).value else [];
      later := before + more;
      NoTargets(c);
      TargetsConcat(c, before, more);
      assert GcAllPuts(refs, inputs) == GcAllPuts(init, inputs) + more;
      assert GcAllPuts(refs[..n], inputs) + before + more == GcAllPuts(refs[..n], inputs) + later;
    }
  }

  lemma {:induction false} PrLaterPuts(c: Crypto, refs: seq<ResourceRef>, inputs: nat -> Reading, n: nat, path: Path)
    returns (later: seq<Put>)
    requires n <= |refs| && forall k :: n <= k < |refs| ==> !PrTargets(c, refs, inputs, k, path)
    ensures PrAllPuts(refs, inputs) == PrAllPuts(refs[..n], inputs) + later && path !in Targets(c, later)
  {
    hide PrRefPuts, Targets;
    if n == |refs| {
      assert refs[..n] == refs;
      NoTargets(c);
      later := [];
    } else {
      var init, last := refs[..|refs| - 1], |refs| - 1;
      forall k | n <= k < |init| ensures !PrTargets(c, init, inputs, k, path) {
        assert !PrTargets(c, refs, inputs, k, path);
      }
      var before := PrLaterPuts(c, init, inputs, n, path);
      assert init[..n] == refs[..n] && !PrTargets(c, refs, inputs, last, path);
      var more := if PrRefPuts(refs[last], inputs(last)).Some? then PrRefPuts(refs[last], inputs(last)).value else [];
      later := before + more;
      NoTargets(c);
      TargetsConcat(c, before, more);
      assert PrAllPuts(refs, inputs) == PrAllPuts(init, inputs) + more;
      assert PrAllPuts(refs[..n], inputs) + before + more == PrAllPuts(refs[..n], inputs) + later;
    }
  }

  // Put j of some files that come between others stays if nothing later goes where it goes.
  lemma MiddleStays(c: Crypto, tree: Tree, before: seq<Put>, puts: seq<Put>, later: seq<Put>, j: nat)
    requires j < |puts| && !puts[j].append
    requires Target(puts[j].path, c.config) !in Targets(c, puts[j + 1..]) + Targets(c, later)
    ensures var target := Target(puts[j].path, c.config);
            && At(GcFold(c, tree, before + puts + later), target) == Sealed(c, puts[j], puts[j].content)
            && At(PrFold(c, tree, before + puts + later), target) == Sealed(c, puts[j], puts[j].content)
  {
    hide Targets, Target, Sealed, GcFold, PrFold;
    var all, m := before + puts + later, |before| + j;
    assert all[m] == puts[j] && all[m + 1..] == puts[j + 1..] + later;
    TargetsConcat(c, puts[j + 1..], later);
    LastOverwriteStays(c, tree, all, m);
  }

  /** References come in the order of the spec: file j of reference i, whatever was there before, is what its
      target ends up with unless a later file of it or a later reference goes there. */
  lemma GcReferenceStays(c: Crypto, tree: Tree, refs: seq<ResourceRef>, inputs: nat -> Reading, i: nat, j: nat)
    requires i < |refs| && GcRefPuts(refs[i], inputs(i)).Some? && j < |GcRefPuts(refs[i], inputs(i)).value|
    requires var puts := GcRefPuts(refs[i], inputs(i)).value;
             var target := Target(puts[j].path, c.config);
             && target !in Targets(c, puts[j + 1..])
             && forall k :: i < k < |refs| ==> !GcTargets(c, refs, inputs, k, target)
    ensures var put := GcRefPuts(refs[i], inputs(i)).value[j];
            At(GcFold(c, tree, GcAllPuts(refs, inputs)), Target(put.path, c.config)) == Sealed(c, put, put.content)
  {
    hide GcRefPuts, Targets, Target, Sealed, GcFold, PrFold, GcAllPuts;
    var puts := GcRefPuts(refs[i], inputs(i)).value;
    GcRefsOverwrite(refs[i], inputs(i));
    var later := GcLaterPuts(c, refs, inputs, i + 1, Target(puts[j].path, c.config));
    GcAllPutsStep(refs, inputs, i);
    MiddleStays(c, tree, GcAllPuts(refs[..i], inputs), puts, later, j);
  }

  /** The same for PullRequest, whose references may append instead. */
  lemma PrReferenceStays(c: Crypto, tree: Tree, refs: seq<ResourceRef>, inputs: nat -> Reading, i: nat, j: nat)
    requires i < |refs| && PrRefPuts(refs[i], inputs(i)).Some? && j < |PrRefPuts(refs[i], inputs(i)).value|
    requires !refs[i].append
    requires var puts := PrRefPuts(refs[i], inputs(i)).value;
             var target := Target(puts[j].path, c.config);
             && target !in Targets(c, puts[j + 1..])
             && forall k :: i < k < |refs| ==> !PrTargets(c, refs, inputs, k, target)
    ensures var put := PrRefPuts(refs[i], inputs(i)).value[j];
            At(PrFold(c, tree, PrAllPuts(refs, inputs)), Target(put.path, c.config)) == Sealed(c, put, put.content)
  {
    hide PrRefPuts, Targets, Target, Sealed, GcFold, PrFold, PrAllPuts;
    var puts := PrRefPuts(refs[i], inputs(i)).value;
    PrRefsFollowMode(refs[i], inputs(i));
    var later := PrLaterPuts(c, refs, inputs, i + 1, Target(puts[j].path, c.config));
    PrAllPutsStep(refs, inputs, i);
    MiddleStays(c, tree, PrAllPuts(refs[..i], inputs), puts, later, j);
  }

  /* Order independence. */

  // Where the field goes, and what GitCommit leaves there.
  function FieldTarget(c: Crypto, prefix: Path, key: string): Path {
    Target(prefix + key, c.config)
  }

  function FieldContent(c: Crypto, prefix: Path, data: map<string, string>, draw: Path -> nat, key: string): Bytes
    requires key in data
  {
    Sealed(c, FieldPut(prefix, data, key, false, draw), data[key])
  }

  function FieldsTree(c: Crypto, base: Tree, prefix: Path, data: map<string, string>, order: seq<string>,
                      draw: Path -> nat): Tree
    requires forall k :: k in order ==> k in data
  {
    GcFold(c, base, FieldPuts(prefix, data, order, false, draw))
  }

  // The last key of the order that is written to the path.
  function LastFor(c: Crypto, prefix: Path, order: seq<string>, path: Path): (k: Option<string>)
    ensures k.Some? ==> k.value in order && FieldTarget(c, prefix, k.value) == path
    ensures k.None? ==> forall key :: key in order ==> FieldTarget(c, prefix, key) != path
  {
    if order == [] then None
    else if FieldTarget(c, prefix, order[|order| - 1]) == path then Some(order[|order| - 1])
    else LastFor(c, prefix, order[..|order| - 1], path)
  }

  lemma {:induction false} FieldsTreeAt(c: Crypto, base: Tree, prefix: Path, data: map<string, string>,
                                        order: seq<string>, draw: Path -> nat, path: Path)
    requires forall k :: k in order ==> k in data
    ensures var tree, k := FieldsTree(c, base, prefix, data, order, draw), LastFor(c, prefix, order, path);
            if k.Some? then path in tree && tree[path] == FieldContent(c, prefix, data, draw, k.value)
            else (path in tree <==> path in base) && (path in tree ==> tree[path] == base[path])
  {
    if order != [] {
      var n := |order| - 1;
      var puts := FieldPuts(prefix, data, order, false, draw);
      assert puts[..n] == FieldPuts(prefix, data, order[..n], false, draw);
      FieldsTreeAt(c, base, prefix, data, order[..n], draw, path);
    }
  }

  // Two keys that go to the same path agree on what to leave there.
  ghost predicate Consistent(c: Crypto, prefix: Path, data: map<string, string>, draw: Path -> nat) {
    forall k, l :: k in data && l in data && FieldTarget(c, prefix, k) == FieldTarget(c, prefix, l) ==>
                     FieldContent(c, prefix, data, draw, k) == FieldContent(c, prefix, data, draw, l)
  }

  ghost predicate OrderIndependent(c: Crypto, base: Tree, prefix: Path, data: map<string, string>, draw: Path -> nat) {
    forall o, p :: IsOrder(o, data) && IsOrder(p, data) ==>
                     FieldsTree(c, base, prefix, data, o, draw) == FieldsTree(c, base, prefix, data, p, draw)
  }

  lemma ConsistentOrders(c: Crypto, base: Tree, prefix: Path, data: map<string, string>, draw: Path -> nat,
                         o: seq<string>, p: seq<string>)
    requires IsOrder(o, data) && IsOrder(p, data) && Consistent(c, prefix, data, draw)
    ensures FieldsTree(c, base, prefix, data, o, draw) == FieldsTree(c, base, prefix, data, p, draw)
  {
    var t, u := FieldsTree(c, base, prefix, data, o, draw), FieldsTree(c, base, prefix, data, p, draw);
    forall path: Path
      ensures path in t <==> path in u
      ensures path in t ==> t[path] == u[path]
    {
      FieldsTreeAt(c, base, prefix, data, o, draw, path);
      FieldsTreeAt(c, base, prefix, data, p, draw, path);
    }
  }

  // An order in which a given key comes last.
  lemma OrderEndingIn(data: map<string, string>, k: string) returns (o: seq<string>)
    requires k in data
    ensures o != [] && o[|o| - 1] == k && IsOrder(o, data) && IsOrder(o[..|o| - 1], data - {k})
  {
    OrderExists(data - {k});
    var order :| IsOrder(order, data - {k});
    o := order + [k];
    assert o[..|order|] == order;
  }

  /** The tree is the same for every iteration order exactly when keys that share a target path
      agree on its content. */
  lemma OrderIndependentIff(c: Crypto, base: Tree, prefix: Path, data: map<string, string>, draw: Path -> nat)
    ensures OrderIndependent(c, base, prefix, data, draw) <==> Consistent(c, prefix, data, draw)
  {
    if Consistent(c, prefix, data, draw) {
      forall o, p | IsOrder(o, data) && IsOrder(p, data) {
        ConsistentOrders(c, base, prefix, data, draw, o, p);
      }
    } else {
      var k, l :| k in data && l in data && FieldTarget(c, prefix, k) == FieldTarget(c, prefix, l)
                  && FieldContent(c, prefix, data, draw, k) != FieldContent(c, prefix, data, draw, l);
      var o := OrderEndingIn(data, k);
      var p := OrderEndingIn(data, l);
      FieldsTreeAt(c, base, prefix, data, o, draw, FieldTarget(c, prefix, k));
      FieldsTreeAt(c, base, prefix, data, p, draw, FieldTarget(c, prefix, k));
    }
  }

  ghost predicate DistinctTargets(c: Crypto, prefix: Path, data: map<string, string>) {
    forall k, l :: k in data && l in data && k != l ==> FieldTarget(c, prefix, k) != FieldTarget(c, prefix, l)
  }

  /** Two keys share a target path only through the extension: one is encrypted and the other is
      that key with the extension. */
  lemma SameTargetIff(c: Crypto, prefix: Path, k: string, l: string)
    requires k != l
    ensures var ext := Extension(c.config);
            FieldTarget(c, prefix, k) == FieldTarget(c, prefix, l) <==>
              || (ShouldEncrypt(prefix + k, c.config) && l == k + ext)
              || (ShouldEncrypt(prefix + l, c.config) && k == l + ext)
  {
    var ext := Extension(c.config);
    TakeSuffix(prefix, k, ext);
    TakeSuffix(prefix, l, ext);
  }

  lemma TakeSuffix(prefix: Path, k: string, ext: string)
    ensures (prefix + k)[|prefix|..] == k && ((prefix + k) + ext)[|prefix|..] == k + ext
    ensures prefix + (k + ext) == (prefix + k) + ext && HasSuffix((prefix + k) + ext, ext)
    ensures (k + ext)[..|k|] == k
  {
  }

  /** Target paths are pairwise distinct exactly when no encrypted key comes with its extended key. */
  lemma DistinctTargetsIff(c: Crypto, prefix: Path, data: map<string, string>)
    ensures DistinctTargets(c, prefix, data) <==>
            forall k :: k in data && ShouldEncrypt(prefix + k, c.config) ==> k + Extension(c.config) !in data
  {
    forall k, l | k in data && l in data && k != l
      ensures var ext := Extension(c.config);
              FieldTarget(c, prefix, k) == FieldTarget(c, prefix, l) <==>
                || (ShouldEncrypt(prefix + k, c.config) && l == k + ext)
                || (ShouldEncrypt(prefix + l, c.config) && k == l + ext)
    {
      SameTargetIff(c, prefix, k, l);
    }
    forall k | k in data && ShouldEncrypt(prefix + k, c.config) && k + Extension(c.config) in data
      ensures !DistinctTargets(c, prefix, data)
    {
      assert |k + Extension(c.config)| > |k|;
    }
  }

  /* PullRequest honours the write mode of the reference: appending inputs the plain path. */

  ghost predicate NoRepeats(order: seq<string>) {
    forall i, j :: 0 <= i < j < |order| ==> order[i] != order[j]
  }

  function PrFieldsTree(c: Crypto, base: Tree, prefix: Path, data: map<string, string>, order: seq<string>,
                        append: bool, draw: Path -> nat): Tree
    requires forall k :: k in order ==> k in data
  {
    PrFold(c, base, FieldPuts(prefix, data, order, append, draw))
  }

  lemma PrFieldsTreeStep(c: Crypto, base: Tree, prefix: Path, data: map<string, string>, order: seq<string>,
                         append: bool, draw: Path -> nat)
    requires order != [] && forall k :: k in order ==> k in data
    ensures var n := |order| - 1;
            PrFieldsTree(c, base, prefix, data, order, append, draw)
            == PrPut(c, PrFieldsTree(c, base, prefix, data, order[..n], append, draw),
                     FieldPut(prefix, data, order[n], append, draw))
  {
    var n := |order| - 1;
    assert FieldPuts(prefix, data, order, append, draw)[..n] == FieldPuts(prefix, data, order[..n], append, draw);
  }

  // What the encrypted key k leaves at its target, whatever came before: its plain path is no target.
  function SealedField(c: Crypto, base: Tree, prefix: Path, data: map<string, string>, append: bool,
                       draw: Path -> nat, k: string): Bytes
    requires k in data
  {
    c.cipher.enc(draw(prefix + k), (if append then At(base, prefix + k) else "") + data[k])
  }

  // What the plain key l leaves on top of what is there.
  function PlainField(data: map<string, string>, append: bool, l: string, before: Bytes): Bytes
    requires l in data
  {
    (if append then before else "") + data[l]
  }

  lemma PlainPathIsFree(c: Crypto, prefix: Path, j: string, k: string)
    requires ShouldEncrypt(prefix + k, c.config)
    ensures FieldTarget(c, prefix, j) != prefix + k
  {
    TakeSuffix(prefix, j, Extension(c.config));
    TakeSuffix(prefix, k, Extension(c.config));
  }

  lemma {:induction false} PlainPathKept(c: Crypto, base: Tree, prefix: Path, data: map<string, string>,
                                         order: seq<string>, append: bool, draw: Path -> nat, k: string)
    requires (forall j :: j in order ==> j in data) && ShouldEncrypt(prefix + k, c.config)
    ensures At(PrFieldsTree(c, base, prefix, data, order, append, draw), prefix + k) == At(base, prefix + k)
  {
    hide HasSuffix;
    if order != [] {
      var n := |order| - 1;
      PrFieldsTreeStep(c, base, prefix, data, order, append, draw);
      PlainPathIsFree(c, prefix, order[n], k);
      PlainPathKept(c, base, prefix, data, order[..n], append, draw, k);
    }
  }

  // One more key: an encrypted one seals its target, a plain one adds to it, and other paths stay.
  lemma LastField(c: Crypto, base: Tree, prefix: Path, data: map<string, string>, order: seq<string>, append: bool,
                  draw: Path -> nat, path: Path)
    requires order != [] && forall k :: k in order ==> k in data
    ensures var n := |order| - 1;
            var k, t := order[n], PrFieldsTree(c, base, prefix, data, order, append, draw);
            var before := PrFieldsTree(c, base, prefix, data, order[..n], append, draw);
            if FieldTarget(c, prefix, k) != path then
              (path in t <==> path in before) && At(t, path) == At(before, path)
            else
              && path in t
              && t[path] == if ShouldEncrypt(prefix + k, c.config)
                            then SealedField(c, base, prefix, data, append, draw, k)
                            else PlainField(data, append, k, At(before, path))
  {
    hide HasSuffix;
    var n := |order| - 1;
    var k := order[n];
    PrFieldsTreeStep(c, base, prefix, data, order, append, draw);
    if ShouldEncrypt(prefix + k, c.config) {
      PlainPathKept(c, base, prefix, data, order[..n], append, draw, k);
    }
    assert "" + data[k] == data[k];
  }

  // The encrypted key k and the extended key that shares its target leave the same in either order.
  predicate Tolerant(c: Crypto, base: Tree, prefix: Path, data: map<string, string>, append: bool, draw: Path -> nat,
                     k: string)
    requires k in data
  {
    var l := k + Extension(c.config);
    l in data ==>
      var s := SealedField(c, base, prefix, data, append, draw, k);
      PlainField(data, append, l, s) == s
  }

  // The target of an encrypted key after some of the keys.
  lemma {:induction false} SharedTargetAt(c: Crypto, base: Tree, prefix: Path, data: map<string, string>,
                                          order: seq<string>, append: bool, draw: Path -> nat, k: string)
    requires (forall j :: j in order ==> j in data) && NoRepeats(order)
    requires k in data && ShouldEncrypt(prefix + k, c.config)
    requires k + Extension(c.config) in order ==> Tolerant(c, base, prefix, data, append, draw, k)
    ensures var t, l, path := PrFieldsTree(c, base, prefix, data, order, append, draw), k + Extension(c.config),
                              FieldTarget(c, prefix, k);
            && (path in t <==> path in base || k in order || l in order)
            && At(t, path) == if k in order then SealedField(c, base, prefix, data, append, draw, k)
                              else if l in order then PlainField(data, append, l, At(base, path))
                              else At(base, path)
  {
    hide SealedField, PlainField, HasSuffix, ShouldEncrypt;
    if order != [] {
      var n, l := |order| - 1, k + Extension(c.config);
      var path := FieldTarget(c, prefix, k);
      assert order == order[..n] + [order[n]];
      SharedTargetAt(c, base, prefix, data, order[..n], append, draw, k);
      LastField(c, base, prefix, data, order, append, draw, path);
      ExtendedKeyIsPlain(c, prefix, k);
      if order[n] != k {
        SameTargetIff(c, prefix, order[n], k);
        NotTwiceExtended(c, prefix, order[n], k);
      }
    }
  }

  // The extended key is not encrypted, and goes where the encrypted key goes.
  lemma ExtendedKeyIsPlain(c: Crypto, prefix: Path, k: string)
    requires ShouldEncrypt(prefix + k, c.config)
    ensures var l := k + Extension(c.config);
            && !ShouldEncrypt(prefix + l, c.config) && l != k
            && FieldTarget(c, prefix, l) == prefix + l == FieldTarget(c, prefix, k)
  {
    TakeSuffix(prefix, k, Extension(c.config));
    assert |k + Extension(c.config)| > |k|;
  }

  lemma NotTwiceExtended(c: Crypto, prefix: Path, j: string, k: string)
    requires ShouldEncrypt(prefix + k, c.config)
    ensures k != j + Extension(c.config)
  {
    TakeSuffix(prefix, j, Extension(c.config));
  }

  // The path of a plain key that shares it with no encrypted one.
  lemma {:induction false} OwnTargetAt(c: Crypto, base: Tree, prefix: Path, data: map<string, string>,
                                       order: seq<string>, append: bool, draw: Path -> nat, l: string)
    requires (forall j :: j in order ==> j in data) && NoRepeats(order)
    requires l in data && forall j :: j in order && j != l ==> FieldTarget(c, prefix, j) != FieldTarget(c, prefix, l)
    requires !ShouldEncrypt(prefix + l, c.config)
    ensures var t, path := PrFieldsTree(c, base, prefix, data, order, append, draw), FieldTarget(c, prefix, l);
            && (path in t <==> path in base || l in order)
            && At(t, path) == if l in order then PlainField(data, append, l, At(base, path)) else At(base, path)
  {
    hide SealedField, PlainField, HasSuffix, ShouldEncrypt;
    if order != [] {
      var n := |order| - 1;
      assert order == order[..n] + [order[n]];
      OwnTargetAt(c, base, prefix, data, order[..n], append, draw, l);
      LastField(c, base, prefix, data, order, append, draw, FieldTarget(c, prefix, l));
    }
  }

  lemma {:induction false} NoTargetAt(c: Crypto, base: Tree, prefix: Path, data: map<string, string>,
                                      order: seq<string>, append: bool, draw: Path -> nat, path: Path)
    requires forall j :: j in order ==> j in data && FieldTarget(c, prefix, j) != path
    ensures var t := PrFieldsTree(c, base, prefix, data, order, append, draw);
            (path in t <==> path in base) && At(t, path) == At(base, path)
  {
    hide SealedField, PlainField, FieldTarget;
    if order != [] {
      NoTargetAt(c, base, prefix, data, order[..|order| - 1], append, draw, path);
      LastField(c, base, prefix, data, order, append, draw, path);
    }
  }

  ghost predicate AllTolerant(c: Crypto, base: Tree, prefix: Path, data: map<string, string>, append: bool,
                              draw: Path -> nat)
  {
    forall k :: k in data && ShouldEncrypt(prefix + k, c.config) ==> Tolerant(c, base, prefix, data, append, draw, k)
  }

  ghost predicate PrOrderIndependent(c: Crypto, base: Tree, prefix: Path, data: map<string, string>, append: bool,
                                     draw: Path -> nat)
  {
    forall o, p :: IsOrder(o, data) && IsOrder(p, data) ==>
      PrFieldsTree(c, base, prefix, data, o, append, draw) == PrFieldsTree(c, base, prefix, data, p, append, draw)
  }

  // With tolerant pairs a path ends up the same in any two orders.
  lemma SameInBothOrders(c: Crypto, base: Tree, prefix: Path, data: map<string, string>, append: bool,
                         draw: Path -> nat, o: seq<string>, p: seq<string>, path: Path)
    requires IsOrder(o, data) && IsOrder(p, data) && AllTolerant(c, base, prefix, data, append, draw)
    ensures var t, u := PrFieldsTree(c, base, prefix, data, o, append, draw),
                        PrFieldsTree(c, base, prefix, data, p, append, draw);
            (path in t <==> path in u) && At(t, path) == At(u, path)
  {
    hide Tolerant, SealedField, PlainField, HasSuffix, ShouldEncrypt, PrFieldsTree;
    if j :| j in data && ShouldEncrypt(prefix + j, c.config) && FieldTarget(c, prefix, j) == path {
      SharedTargetAt(c, base, prefix, data, o, append, draw, j);
      SharedTargetAt(c, base, prefix, data, p, append, draw, j);
    } else if l :| l in data && FieldTarget(c, prefix, l) == path {
      forall j | j in data && j != l ensures FieldTarget(c, prefix, j) != path {
        SameTargetIff(c, prefix, j, l);
      }
      OwnTargetAt(c, base, prefix, data, o, append, draw, l);
      OwnTargetAt(c, base, prefix, data, p, append, draw, l);
    } else {
      NoTargetAt(c, base, prefix, data, o, append, draw, path);
      NoTargetAt(c, base, prefix, data, p, append, draw, path);
    }
  }

  lemma SealedLast(c: Crypto, base: Tree, prefix: Path, data: map<string, string>, append: bool, draw: Path -> nat,
                   o: seq<string>, k: string)
    requires o != [] && o[|o| - 1] == k && (forall j :: j in o ==> j in data) && ShouldEncrypt(prefix + k, c.config)
    ensures At(PrFieldsTree(c, base, prefix, data, o, append, draw), FieldTarget(c, prefix, k))
            == SealedField(c, base, prefix, data, append, draw, k)
  {
    hide SealedField, PlainField, HasSuffix, PrFieldsTree;
    LastField(c, base, prefix, data, o, append, draw, FieldTarget(c, prefix, k));
  }

  lemma ExtendedLast(c: Crypto, base: Tree, prefix: Path, data: map<string, string>, append: bool, draw: Path -> nat,
                     o: seq<string>, k: string)
    requires o != [] && o[|o| - 1] == k + Extension(c.config) && (forall j :: j in o ==> j in data)
    requires NoRepeats(o[..|o| - 1]) && k in o[..|o| - 1] && k + Extension(c.config) !in o[..|o| - 1]
    requires ShouldEncrypt(prefix + k, c.config)
    ensures At(PrFieldsTree(c, base, prefix, data, o, append, draw), FieldTarget(c, prefix, k))
            == PlainField(data, append, k + Extension(c.config), SealedField(c, base, prefix, data, append, draw, k))
  {
    hide SealedField, PlainField, HasSuffix, PrFieldsTree, NoRepeats;
    ExtendedKeyIsPlain(c, prefix, k);
    LastField(c, base, prefix, data, o, append, draw, FieldTarget(c, prefix, k));
    SharedTargetAt(c, base, prefix, data, o[..|o| - 1], append, draw, k);
  }

  // An intolerant pair comes out differently with one or the other key last.
  lemma IntolerantPair(c: Crypto, base: Tree, prefix: Path, data: map<string, string>, append: bool, draw: Path -> nat,
                       k: string)
    requires k in data && ShouldEncrypt(prefix + k, c.config) && !Tolerant(c, base, prefix, data, append, draw, k)
    ensures !PrOrderIndependent(c, base, prefix, data, append, draw)
  {
    hide SealedField, PlainField, HasSuffix, ShouldEncrypt, PrFieldsTree;
    ExtendedKeyIsPlain(c, prefix, k);
    var o := OrderEndingIn(data, k);
    var p := OrderEndingIn(data, k + Extension(c.config));
    assert k in data - {k + Extension(c.config)};
    SealedLast(c, base, prefix, data, append, draw, o, k);
    ExtendedLast(c, base, prefix, data, append, draw, p, k);
  }

  // Appended, the extended key must be empty; overwriting, it must hold the very ciphertext.
  lemma TolerantIff(c: Crypto, base: Tree, prefix: Path, data: map<string, string>, append: bool, draw: Path -> nat,
                    k: string)
    requires k in data && k + Extension(c.config) in data
    ensures Tolerant(c, base, prefix, data, append, draw, k) <==>
            data[k + Extension(c.config)]
            == if append then "" else c.cipher.enc(draw(prefix + k), data[k])
  {
    var s := SealedField(c, base, prefix, data, append, draw, k);
    var d := data[k + Extension(c.config)];
    assert "" + data[k] == data[k] && "" + d == d;
    if append {
      assert s + d == s <==> d == "" by {
        if d == "" {
          assert s + d == s;
        } else {
          assert |s + d| > |s|;
        }
      }
    }
  }

  lemma TolerantOrders(c: Crypto, base: Tree, prefix: Path, data: map<string, string>, append: bool,
                              draw: Path -> nat)
    ensures PrOrderIndependent(c, base, prefix, data, append, draw)
            <==> AllTolerant(c, base, prefix, data, append, draw)
  {
    hide Tolerant, PrFieldsTree, ShouldEncrypt;
    if AllTolerant(c, base, prefix, data, append, draw) {
      forall o, p | IsOrder(o, data) && IsOrder(p, data)
        ensures PrFieldsTree(c, base, prefix, data, o, append, draw)
                == PrFieldsTree(c, base, prefix, data, p, append, draw)
      {
        var t, u := PrFieldsTree(c, base, prefix, data, o, append, draw),
                    PrFieldsTree(c, base, prefix, data, p, append, draw);
        forall path: Path ensures (path in t <==> path in u) && (path in t ==> t[path] == u[path]) {
          SameInBothOrders(c, base, prefix, data, append, draw, o, p, path);
        }
      }
    } else {
      var k :| k in data && ShouldEncrypt(prefix + k, c.config) && !Tolerant(c, base, prefix, data, append, draw, k);
      IntolerantPair(c, base, prefix, data, append, draw, k);
    }
  }

  /** The PullRequest tree is the same for every iteration order exactly when every extended key beside
      its encrypted key is empty, if the mode is append, or holds the very ciphertext otherwise. */
  lemma PrOrderIndependentIff(c: Crypto, base: Tree, prefix: Path, data: map<string, string>, append: bool,
                              draw: Path -> nat)
    ensures PrOrderIndependent(c, base, prefix, data, append, draw) <==>
            forall k :: k in data && ShouldEncrypt(prefix + k, c.config) && k + Extension(c.config) in data ==>
              data[k + Extension(c.config)] == if append then "" else c.cipher.enc(draw(prefix + k), data[k])
  {
    hide SealedField, PlainField, ShouldEncrypt, PrFieldsTree, Extension;
    TolerantOrders(c, base, prefix, data, append, draw);
    forall k | k in data && ShouldEncrypt(prefix + k, c.config) && k + Extension(c.config) in data
      ensures Tolerant(c, base, prefix, data, append, draw, k) <==>
              data[k + Extension(c.config)] == if append then "" else c.cipher.enc(draw(prefix + k), data[k])
    {
      TolerantIff(c, base, prefix, data, append, draw, k);
    }
  }

  /** In both write modes, distinct target paths make the PullRequest tree independent of the
      iteration order. */
  lemma PrFieldsOrderIndependent(c: Crypto, base: Tree, prefix: Path, data: map<string, string>, append: bool,
                                 draw: Path -> nat, o: seq<string>, p: seq<string>)
    requires IsOrder(o, data) && IsOrder(p, data) && DistinctTargets(c, prefix, data)
    ensures PrFieldsTree(c, base, prefix, data, o, append, draw) == PrFieldsTree(c, base, prefix, data, p, append, draw)
  {
    DistinctTargetsIff(c, prefix, data);
    PrOrderIndependentIff(c, base, prefix, data, append, draw);
  }
}
