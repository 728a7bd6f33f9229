/** parseRepository: the owner and name of a GitHub repository, cut out of its URL with the path
    functions of the standard library. */
module RepositoryUrl {
  import opened Text

  datatype Parsed = Repo(owner: string, name: string) | Invalid | Panic

  const PREFIX := "https://github.com/"
  const GIT := ".git"

  function StripSlashes(s: string): string {
    if s != "" && s[|s| - 1] == '/' then StripSlashes(s[..|s| - 1]) else s
  }

  /** filepath.Base */
  function Base(path: string): string {
    if path == "" then "."
    else
      var stripped := StripSlashes(path);
      if stripped == "" then "/" else stripped[LastSlash(stripped) + 1..]
  }

  function Split(s: string): seq<string> {
    var i := LastSlash(s);
    if i < 0 then [s] else Split(s[..i]) + [s[i + 1..]]
  }

  // The elements that remain of a rooted path once "." and ".." are resolved.
  function Resolve(elements: seq<string>): seq<string> {
    if elements == [] then []
    else
      var init, last := Resolve(elements[..|elements| - 1]), elements[|elements| - 1];
      if last == "" || last == "." then init
      else if last == ".." then (if init == [] then [] else init[..|init| - 1])
      else init + [last]
  }

  function Rooted(elements: seq<string>): string {
    if elements == [] then "/"
    else if |elements| == 1 then "/" + elements[0]
    else Rooted(elements[..|elements| - 1]) + "/" + elements[|elements| - 1]
  }

  /** filepath.Dir of a rooted path */
  function Dir(path: string): string
    requires path != "" && path[0] == '/'
  {
    Rooted(Resolve(Split(path[..LastSlash(path) + 1])))
  }

  function ParseRepository(url: string): Parsed {
    if |url| < |PREFIX| || url[..|PREFIX|] != PREFIX then Invalid else ParseRest(url[|PREFIX|..])
  }

  function ParseRest(parts: string): Parsed {
    if |parts| < 4 then Panic  // the slice of the last four characters is out of range
    else
      var trimmed := if HasSuffix(parts, GIT) then parts[..|parts| - 4] else parts;
      Repo(Base(Dir("/" + trimmed)), Base(trimmed))
  }

  // A name that is one path element.
  predicate Element(s: string) {
    s != "" && s != "." && s != ".." && '/' !in s
  }

  function Rest(owner: string, name: string, git: bool): string {
    if git then owner + "/" + name + GIT else owner + "/" + name
  }

  lemma {:induction false} PrefixThenRest(prefix: string, rest: string)
    ensures (prefix + rest)[..|prefix|] == prefix && (prefix + rest)[|prefix|..] == rest
  {
  }

  lemma {:induction false} SlashBefore(a: string, b: string)
    requires '/' !in b
    ensures LastSlash(a + "/" + b) == |a|
  {
    var s := a + "/" + b;
    assert s[|a|] == '/';
    forall j | |a| < j < |s| ensures s[j] != '/' {
      assert s[j] == b[j - |a| - 1];
    }
  }

  lemma {:induction false} NoSlash(s: string)
    requires '/' !in s
    ensures LastSlash(s) == -1
  {
  }

  lemma {:induction false} BaseOfElement(dir: string, name: string)
    requires name != "" && '/' !in name
    ensures Base(dir + "/" + name) == name
  {
    var path := dir + "/" + name;
    assert path[|path| - 1] == name[|name| - 1];
    assert StripSlashes(path) == path;
    SlashBefore(dir, name);
    assert path[|dir| + 1..] == name;
  }

  lemma {:induction false} SplitAt(a: string, b: string)
    requires '/' !in b
    ensures Split(a + "/" + b) == Split(a) + [b]
  {
    SlashBefore(a, b);
    var s := a + "/" + b;
    assert s[..|a|] == a && s[|a| + 1..] == b;
  }

  lemma {:induction false} SplitOwner(owner: string)
    requires '/' !in owner
    ensures Split("" + "/" + owner + "/" + "") == [""] + [owner] + [""]
  {
    NoSlash("");
    SplitAt("", owner);
    SplitAt("" + "/" + owner, "");
  }

  lemma {:induction false} ResolveSnoc(elements: seq<string>, last: string)
    ensures Resolve(elements + [last])
            == var init := Resolve(elements);
               if last == "" || last == "." then init
               else if last == ".." then (if init == [] then [] else init[..|init| - 1])
               else init + [last]
  {
    assert (elements + [last])[..|elements|] == elements;
  }

  lemma {:induction false} ResolveOwner(owner: string)
    requires Element(owner)
    ensures Resolve([""] + [owner] + [""]) == [owner]
  {
    assert [""] == [] + [""];
    ResolveSnoc([], "");
    ResolveSnoc([""], owner);
    ResolveSnoc([""] + [owner], "");
  }

  lemma {:induction false} DirOfElement(owner: string, name: string)
    requires Element(owner) && '/' !in name
    ensures Dir("/" + (owner + "/" + name)) == "/" + owner
  {
    var path := "/" + (owner + "/" + name);
    assert path == ("" + "/" + owner) + "/" + name;
    SlashBefore("" + "/" + owner, name);
    assert path[..LastSlash(path) + 1] == "" + "/" + owner + "/" + "";
    SplitOwner(owner);
    ResolveOwner(owner);
  }

  // What is parsed from "owner/name" once a ".git" suffix has been cut off.
  lemma {:induction false} ParsedParts(owner: string, name: string)
    requires Element(owner) && '/' !in name && name != ""
    ensures Base(Dir("/" + (owner + "/" + name))) == owner && Base(owner + "/" + name) == name
  {
    DirOfElement(owner, name);
    assert "/" + owner == "" + "/" + owner;
    BaseOfElement("", owner);
    BaseOfElement(owner, name);
  }

  // "owner/" is what ".git" as a repository name leaves.
  lemma {:induction false} NamelessParts(owner: string)
    requires Element(owner)
    ensures Base(owner + "/") == owner && Base(Dir("/" + (owner + "/"))) == owner
  {
    DirOfElement(owner, "");
    assert owner + "/" + "" == owner + "/";
    assert "/" + owner == "" + "/" + owner;
    BaseOfElement("", owner);
    assert (owner + "/")[..|owner|] == owner;
    assert StripSlashes(owner + "/") == StripSlashes(owner) == owner;
    NoSlash(owner);
  }

  lemma {:induction false} RestRoundTrip(owner: string, name: string, git: bool)
    requires Element(owner) && Element(name)
    ensures ParseRest(Rest(owner, name, git)) == Repo(owner, name) <==>
              git || (|owner| + |name| >= 3 && (HasSuffix(name, GIT) ==> owner == name == GIT))
  {
    var path := owner + "/" + name;
    var parts := Rest(owner, name, git);
    if git {
      assert parts[|parts| - 4..] == GIT && parts[..|parts| - 4] == path;
      ParsedParts(owner, name);
    } else if |parts| >= 4 {
      EndingOfPath(owner, name);
      if HasSuffix(path, GIT) {
        var cut := name[..|name| - 4];
        assert name == cut + GIT;
        EndingCut(owner, cut);
      } else {
        ParsedParts(owner, name);
      }
    }
  }

  // The name ends in ".git", and the cut takes that away.
  lemma {:induction false} EndingCut(owner: string, cut: string)
    requires Element(owner) && Element(cut + GIT)
    ensures ParseRest(owner + "/" + (cut + GIT)) == Repo(owner, cut + GIT) <==> cut == "" && owner == GIT
  {
    var path := owner + "/" + (cut + GIT);
    assert path == (owner + "/" + cut) + GIT;
    assert path[|path| - 4..] == GIT && path[..|path| - 4] == owner + "/" + cut;
    assert ParseRest(path) == Repo(Base(Dir("/" + (owner + "/" + cut))), Base(owner + "/" + cut));
    if cut == "" {
      assert owner + "/" + cut == owner + "/" && cut + GIT == GIT;
      NamelessParts(owner);
    } else {
      assert '/' !in cut by {
        assert forall i :: 0 <= i < |cut| ==> cut[i] == (cut + GIT)[i];
      }
      ParsedParts(owner, cut);
      assert |cut| != |cut + GIT|;
    }
  }

  /** Round trip. The URL of a repository parses back to its owner and name, with or without ".git",
      exactly when the part after the prefix has at least four characters and, without the suffix,
      the name does not itself end in it (but for ".git/.git", which comes out right by accident). */
  lemma {:induction false} RoundTripIff(owner: string, name: string, git: bool)
    requires Element(owner) && Element(name)
    ensures ParseRepository(PREFIX + Rest(owner, name, git)) == Repo(owner, name) <==>
              git || (|owner| + |name| >= 3 && (HasSuffix(name, GIT) ==> owner == name == GIT))
  {
    PrefixThenRest(PREFIX, Rest(owner, name, git));
    RestRoundTrip(owner, name, git);
  }

  lemma {:induction false} EndingOfPath(owner: string, name: string)
    requires '/' !in name && |owner + "/" + name| >= 4
    ensures HasSuffix(owner + "/" + name, GIT) <==> HasSuffix(name, GIT)
  {
    var path := owner + "/" + name;
    if |name| >= 4 {
      assert path[|path| - 4..] == name[|name| - 4..];
    } else {
      assert path[|owner|] == '/';
      assert '/' in path[|path| - 4..] by {
        assert path[|path| - 4..][|owner| - (|path| - 4)] == '/';
      }
    }
  }

  /** The parser panics exactly on a GitHub URL with fewer than four characters after the prefix,
      such as that of the repository "a/b". */
  lemma {:induction false} PanicIff(url: string, rest: string)
    ensures url == PREFIX + rest ==> (ParseRepository(url) == Panic <==> |rest| < 4)
    ensures (|url| < |PREFIX| || url[..|PREFIX|] != PREFIX) ==> ParseRepository(url) == Invalid
    ensures ParseRepository(PREFIX + Rest("a", "b", false)) == Panic
  {
    PrefixThenRest(PREFIX, rest);
    PrefixThenRest(PREFIX, Rest("a", "b", false));
  }
}
