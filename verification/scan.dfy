/** Repository discovery (internal/scanner/scan.go): a directory tree is
    walked depth first; a directory holding a `.git` child is a repository,
    some directory names are pruned, and every other subdirectory is
    searched in listing order. The file system is an `Entry` tree and the
    absolute form of a path (`filepath.Join(os.Getwd(), path)`) is a
    parameter. */
module Discovery {
  import opened Text

  /** One entry of a directory listing. */
  datatype Entry = File(name: string) | Dir(name: string, children: seq<Entry>)

  /** `filepath.Join` of the working directory and a relative path, kept abstract. */
  type Absolute = string -> string

  /** `ShouldBeIgnored`: directories that are never searched. */
  predicate ShouldBeIgnored(folderName: string)
  {
    folderName == "vendor" || folderName == "node_modules" || folderName == "venv"
  }

  /** Exactly the three names are pruned; other names, such as the ones
      below, are searched. */
  lemma IgnoredNames(name: string)
    ensures ShouldBeIgnored(name) <==> name in ["vendor", "node_modules", "venv"]
    ensures ShouldBeIgnored("node_modules") && ShouldBeIgnored("venv") && ShouldBeIgnored("vendor")
    ensures !ShouldBeIgnored("tests") && !ShouldBeIgnored("src") && !ShouldBeIgnored(".git")
  {
  }

  /** `ScanGitFolders(folders, folder)`: the trailing `/` of `folder` is
      removed, then its listing is walked with the accumulator. */
  function ScanGitFolders(folders: seq<string>, folder: string, listing: seq<Entry>, abs: Absolute): (found: seq<string>)
    ensures folders <= found
    decreases listing, 1
  {
    ScanEntries(folders, TrimSuffix(folder, "/"), listing, abs)
  }

  /** The `for _, file := range files` loop of `ScanGitFolders` over the
      listing of `dir`: a `.git` directory appends the absolute path of
      `dir` and is not entered; a pruned directory and a file are skipped;
      any other directory is searched as `dir + "/" + name`. */
  function ScanEntries(folders: seq<string>, dir: string, listing: seq<Entry>, abs: Absolute): (found: seq<string>)
    ensures folders <= found
    decreases listing, 0
  {
    if |listing| == 0 then folders
    else
      var e := listing[0];
      var next :=
        if e.File? then folders
        else if e.name == ".git" then folders + [abs(dir)]
        else if ShouldBeIgnored(e.name) then folders
        else ScanGitFolders(folders, dir + "/" + e.name, e.children, abs);
      ScanEntries(next, dir, listing[1..], abs)
  }

  /** Reference definition, without an accumulator: the repositories found
      in the listing of `dir`, entry after entry. */
  function Found(dir: string, listing: seq<Entry>, abs: Absolute): seq<string>
    decreases listing
  {
    if |listing| == 0 then []
    else FoundIn(dir, listing[0], abs) + Found(dir, listing[1..], abs)
  }

  /** The repositories one entry of the listing of `dir` contributes. */
  function FoundIn(dir: string, e: Entry, abs: Absolute): seq<string>
    decreases e
  {
    match e
    case File(_) => []
    case Dir(name, children) =>
      if name == ".git" then [abs(dir)]
      else if ShouldBeIgnored(name) then []
      else Found(TrimSuffix(dir + "/" + name, "/"), children, abs)
  }

  /** The walk only appends: it returns the accumulator followed by the
      repositories of the tree, in the order the reference definition finds
      them. */
  lemma {:induction false} ScanEntriesFound(folders: seq<string>, dir: string, listing: seq<Entry>, abs: Absolute)
    ensures ScanEntries(folders, dir, listing, abs) == folders + Found(dir, listing, abs)
    decreases listing, 1
  {
    if |listing| > 0 {
      var next := FirstEntryFound(folders, dir, listing, abs);
      ScanEntriesFound(next, dir, listing[1..], abs);
      StepFound(folders, next, dir, listing, abs);
    } else {
      assert folders + [] == folders;
    }
  }

  /** The sequence algebra of one step of `ScanEntriesFound`. */
  lemma StepFound(folders: seq<string>, next: seq<string>, dir: string, listing: seq<Entry>, abs: Absolute)
    requires |listing| > 0
    requires next == folders + FoundIn(dir, listing[0], abs)
    requires ScanEntries(folders, dir, listing, abs) == ScanEntries(next, dir, listing[1..], abs)
    requires ScanEntries(next, dir, listing[1..], abs) == next + Found(dir, listing[1..], abs)
    ensures ScanEntries(folders, dir, listing, abs) == folders + Found(dir, listing, abs)
  {
    Associative(folders, FoundIn(dir, listing[0], abs), Found(dir, listing[1..], abs));
  }

  /** One step of the walk appends what the first entry contributes. */
  lemma {:induction false} FirstEntryFound(folders: seq<string>, dir: string, listing: seq<Entry>, abs: Absolute)
      returns (next: seq<string>)
    requires |listing| > 0
    ensures ScanEntries(folders, dir, listing, abs) == ScanEntries(next, dir, listing[1..], abs)
    ensures next == folders + FoundIn(dir, listing[0], abs)
    decreases listing, 0
  {
    var e := listing[0];
    next :=
      if e.File? then folders
      else if e.name == ".git" then folders + [abs(dir)]
      else if ShouldBeIgnored(e.name) then folders
      else ScanGitFolders(folders, dir + "/" + e.name, e.children, abs);
    if e.Dir? && e.name != ".git" && !ShouldBeIgnored(e.name) {
      ScanEntriesFound(folders, TrimSuffix(dir + "/" + e.name, "/"), e.children, abs);
    } else {
      assert folders + [] == folders;
    }
  }

  /** `ScanGitFolders` starting from an accumulator returns it followed by
      what the tree holds. */
  lemma ScanGitFoldersFound(folders: seq<string>, folder: string, listing: seq<Entry>, abs: Absolute)
    ensures ScanGitFolders(folders, folder, listing, abs) ==
      folders + Found(TrimSuffix(folder, "/"), listing, abs)
  {
    ScanEntriesFound(folders, TrimSuffix(folder, "/"), listing, abs);
  }

  /** The repositories of two listings, one after the other. */
  lemma {:induction false} FoundAppend(dir: string, a: seq<Entry>, b: seq<Entry>, abs: Absolute)
    ensures Found(dir, a + b, abs) == Found(dir, a, abs) + Found(dir, b, abs)
    decreases |a|
  {
    if |a| > 0 {
      assert (a + b)[0] == a[0] && (a + b)[1..] == a[1..] + b;
      FoundAppend(dir, a[1..], b, abs);
    } else {
      assert a + b == b;
    }
  }

  /** A listing of one entry finds what that entry contributes. */
  lemma FoundSingle(dir: string, e: Entry, abs: Absolute)
    ensures Found(dir, [e], abs) == FoundIn(dir, e, abs)
  {
    assert [e][1..] == [];
    assert FoundIn(dir, e, abs) + [] == FoundIn(dir, e, abs);
  }

  /** The repositories of a listing with one entry singled out. */
  lemma FoundAround(dir: string, before: seq<Entry>, e: Entry, after: seq<Entry>, abs: Absolute)
    ensures Found(dir, before + [e] + after, abs) ==
      Found(dir, before, abs) + FoundIn(dir, e, abs) + Found(dir, after, abs)
  {
    FoundAppend(dir, before + [e], after, abs);
    FoundAppend(dir, before, [e], abs);
    FoundSingle(dir, e, abs);
  }

  /** A `.git` directory contributes the absolute path of its parent and is
      never entered: its content does not matter, and its siblings on both
      sides are still searched. */
  lemma GitDirectory(dir: string, before: seq<Entry>, children: seq<Entry>, after: seq<Entry>, abs: Absolute)
    ensures Found(dir, before + [Dir(".git", children)] + after, abs) ==
      Found(dir, before, abs) + [abs(dir)] + Found(dir, after, abs)
  {
    FoundAround(dir, before, Dir(".git", children), after, abs);
  }

  /** Files and pruned directories contribute nothing, whatever they hold. */
  lemma Skipped(dir: string, before: seq<Entry>, e: Entry, after: seq<Entry>, abs: Absolute)
    requires e.File? || ShouldBeIgnored(e.name)
    ensures Found(dir, before + [e] + after, abs) == Found(dir, before + after, abs)
  {
    FoundAround(dir, before, e, after, abs);
    FoundAppend(dir, before, after, abs);
    assert FoundIn(dir, e, abs) == [];
    assert Found(dir, before, abs) + [] == Found(dir, before, abs);
  }

  /** Any other directory is searched under the path `dir + "/" + name`. */
  lemma Descended(dir: string, before: seq<Entry>, name: string, children: seq<Entry>, after: seq<Entry>, abs: Absolute)
    requires name != ".git" && !ShouldBeIgnored(name)
    ensures Found(dir, before + [Dir(name, children)] + after, abs) ==
      Found(dir, before, abs) + Found(TrimSuffix(dir + "/" + name, "/"), children, abs) + Found(dir, after, abs)
  {
    FoundAround(dir, before, Dir(name, children), after, abs);
  }

  /** One trailing `/` on the starting folder makes no difference. */
  lemma TrailingSlash(folders: seq<string>, folder: string, listing: seq<Entry>, abs: Absolute)
    requires !HasSuffix(folder, "/")
    ensures ScanGitFolders(folders, folder + "/", listing, abs) == ScanGitFolders(folders, folder, listing, abs)
  {
    assert HasSuffix(folder + "/", "/");
    assert TrimSuffix(folder + "/", "/") == folder;
  }

  /** A repository nested inside another is found too, after its parent;
      one under a pruned directory is not. */
  lemma NestedRepositories(abs: Absolute)
    ensures ScanGitFolders([], "../", [Dir("proj", [Dir(".git", []), Dir("vendor", [Dir("lib", [Dir(".git", [])])]), Dir("sub", [Dir(".git", [])])]), File("notes")], abs)
      == [abs("../proj"), abs("../proj/sub")]
  {
    var git := Dir(".git", []);
    var proj := Dir("proj", [git, Dir("vendor", [Dir("lib", [git])]), Dir("sub", [git])]);
    assert TrimSuffix("../", "/") == "..";
    assert ".." + "/" + "proj" == "../proj";
    assert TrimSuffix("../proj", "/") == "../proj";
    ProjectFound(abs);
    assert Found("..", [File("notes")], abs) == [];
    assert Found("..", [proj, File("notes")], abs) == [abs("../proj"), abs("../proj/sub")];
    ScanGitFoldersFound([], "../", [proj, File("notes")], abs);
  }

  /** The listing of `../proj` in `NestedRepositories`. */
  lemma ProjectFound(abs: Absolute)
    ensures Found("../proj", [Dir(".git", []), Dir("vendor", [Dir("lib", [Dir(".git", [])])]), Dir("sub", [Dir(".git", [])])], abs)
      == [abs("../proj"), abs("../proj/sub")]
  {
    var git := Dir(".git", []);
    var vendor := Dir("vendor", [Dir("lib", [git])]);
    var sub := Dir("sub", [git]);
    SubFound(abs);
    assert Found("../proj", [vendor, sub], abs) == [abs("../proj/sub")];
    assert Found("../proj", [git, vendor, sub], abs) == [abs("../proj"), abs("../proj/sub")];
  }

  lemma SubFound(abs: Absolute)
    ensures Found("../proj", [Dir("sub", [Dir(".git", [])])], abs) == [abs("../proj/sub")]
  {
    var git := Dir(".git", []);
    assert "../proj" + "/" + "sub" == "../proj/sub";
    assert TrimSuffix("../proj/sub", "/") == "../proj/sub";
    assert Found("../proj/sub", [git], abs) == [abs("../proj/sub")];
    FoundSingle("../proj", Dir("sub", [git]), abs);
  }
}
