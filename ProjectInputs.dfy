/**
 * The inputs of one project, as `_GetProjectInputs` and `_DirSearch` collect them
 * (cppkg/Program.cs:288-474): the Include items of the project file, or for an SDK-style
 * project every file under its directory less its Remove items plus its Include items;
 * then the excluded files taken out, and finally each entry resolved and kept only when
 * it exists and is not the project file itself.
 */
module ProjectInputs {
  import opened Wrappers
  import opened Strings
  import opened Paths
  import opened Environment

  /*
   * List<string>, with the operations the packager calls on it.
   */

  /** `s` without its first `x`, if it has one (List.Remove). */
  function RemoveFirst(s: seq<string>, x: string): seq<string>
    decreases |s|
  {
    if s == [] then []
    else if s[0] == x then s[1..]
    else [s[0]] + RemoveFirst(s[1..], x)
  }

  /** RemoveFirst takes out nothing when there is no `x`. */
  lemma {:induction false} RemoveFirstAbsent(s: seq<string>, x: string)
    requires x !in s
    ensures RemoveFirst(s, x) == s
    decreases |s|
  {
    if s != [] {
      RemoveFirstAbsent(s[1..], x);
    }
  }

  /** RemoveFirst takes out the element at the first index of `x`. */
  lemma {:induction false} RemoveFirstAt(s: seq<string>, x: string, k: nat)
    requires k < |s| && s[k] == x
    requires forall j :: 0 <= j < k ==> s[j] != x
    ensures RemoveFirst(s, x) == s[..k] + s[k + 1..]
    decreases k
  {
    if k > 0 {
      RemoveFirstAt(s[1..], x, k - 1);
      assert s[..k] == [s[0]] + s[1..][..k - 1];
      assert s[k + 1..] == s[1..][k..];
    }
  }

  /** Dropping the head of `rest` from `w + rest`, at index |w|. */
  lemma RemoveAtJoin(w: seq<string>, rest: seq<string>)
    requires rest != []
    ensures (w + rest)[..|w|] + (w + rest)[|w| + 1..] == w + rest[1..]
  {
    assert (w + rest)[..|w|] == w;
    assert (w + rest)[|w| + 1..] == rest[1..];
  }

  /** Keeping the head of `rest` in `w + rest`. */
  lemma KeepJoin(w: seq<string>, rest: seq<string>)
    requires rest != []
    ensures w + rest == (w + [rest[0]]) + rest[1..] && w + [] == w
  {
  }

  /** Replacing the head of `rest` in `w + rest`, at index |w|. */
  lemma SetAtJoin(w: seq<string>, rest: seq<string>, x: string)
    requires rest != []
    ensures (w + rest)[|w| := x] == (w + [x]) + rest[1..]
  {
  }

  class StringList {
    var items: seq<string>

    constructor ()
      ensures items == []
    {
      items := [];
    }

    method Add(x: string)
      modifies this
      ensures items == old(items) + [x]
    {
      items := items + [x];
    }

    method RemoveAt(i: nat)
      requires i < |items|
      modifies this
      ensures items == old(items)[..i] + old(items)[i + 1..]
    {
      items := items[..i] + items[i + 1..];
    }

    method SetAt(i: nat, x: string)
      requires i < |items|
      modifies this
      ensures items == old(items)[i := x]
    {
      items := items[i := x];
    }

    /** The index of the first `x`, or -1. */
    method IndexOf(x: string) returns (k: int)
      ensures -1 <= k < |items|
      ensures k < 0 <==> x !in items
      ensures k >= 0 ==> items[k] == x && forall j :: 0 <= j < k ==> items[j] != x
    {
      k := 0;
      while k < |items| && items[k] != x
        invariant 0 <= k <= |items|
        invariant forall j :: 0 <= j < k ==> items[j] != x
      {
        k := k + 1;
      }
      if k == |items| {
        k := -1;
      }
    }

    /** Takes out the first `x`, if there is one. */
    method Remove(x: string) returns (removed: bool)
      modifies this
      ensures items == RemoveFirst(old(items), x)
      ensures removed <==> x in old(items)
    {
      var k := IndexOf(x);
      removed := k >= 0;
      if removed {
        RemoveFirstAt(items, x, k);
        RemoveAt(k);
      } else {
        RemoveFirstAbsent(items, x);
      }
    }
  }

  /*
   * The project file's items.
   */

  /** A non-empty Sdk attribute on the first element makes a project SDK-style. */
  predicate IsSdkProject(root: ProjectRoot)
  {
    root.sdk.Some? && root.sdk.value != ""
  }

  /** The children of the ItemGroup elements the item queries select: none unless the first element is a Project. */
  function ItemGroupChildren(root: ProjectRoot): seq<Item>
  {
    if root.localName == "Project" then root.itemGroupChildren else []
  }

  /** An item that names an input: not a reference or a configuration, and with an Include attribute. */
  predicate IsInputItem(item: Item)
  {
    item.localName != "Reference" && item.localName != "ProjectReference"
    && item.localName != "ProjectConfiguration" && item.includeAttr.Some?
  }

  /** The Include values of the input items, in document order. */
  function Includes(children: seq<Item>): (r: seq<string>)
    ensures |r| <= |children|
    decreases |children|
  {
    if children == [] then []
    else (if IsInputItem(children[0]) then [children[0].includeAttr.value] else []) + Includes(children[1..])
  }

  /** The Remove values of all the items, whatever their names, in document order. */
  function Removes(children: seq<Item>): (r: seq<string>)
    ensures |r| <= |children|
    decreases |children|
  {
    if children == [] then []
    else (if children[0].removeAttr.Some? then [children[0].removeAttr.value] else []) + Removes(children[1..])
  }

  /** An entry or an excluded file resolved against the project's directory, when it is not rooted. */
  function Resolved(projectFile: string, fs: FileSystem, s: string): string
  {
    fs.fullPath(if IsPathRooted(s) then s else Combine(DirectoryName(projectFile), s))
  }

  /*
   * The order-preserving filters the in-place loops compute.
   */

  /** The entries whose resolved form is not `target`, in order. */
  function Without(projectFile: string, fs: FileSystem, s: seq<string>, target: string): (r: seq<string>)
    ensures |r| <= |s|
    decreases |s|
  {
    if s == [] then []
    else
      Without(projectFile, fs, s[..|s| - 1], target)
      + (if Resolved(projectFile, fs, s[|s| - 1]) == target then [] else [s[|s| - 1]])
  }

  /** The passes of all the excluded files, one after the other. */
  function ExcludeAll(projectFile: string, fs: FileSystem, s: seq<string>, excluded: seq<string>): seq<string>
    decreases |excluded|
  {
    if excluded == [] then s
    else ExcludeAll(projectFile, fs, Without(projectFile, fs, s, Resolved(projectFile, fs, excluded[0])), excluded[1..])
  }

  /** What the final pass makes of one entry: its resolved form, when that exists and is not the project file. */
  function Kept(projectFile: string, fs: FileSystem, x: string): seq<string>
  {
    var full := Resolved(projectFile, fs, x);
    if full == projectFile || full !in fs.existing then [] else [full]
  }

  /** The final pass: each entry resolved, kept when it exists and is not the project file. */
  function Finalize(projectFile: string, fs: FileSystem, s: seq<string>): (r: seq<string>)
    ensures |r| <= |s|
    decreases |s|
  {
    if s == [] then [] else Finalize(projectFile, fs, s[..|s| - 1]) + Kept(projectFile, fs, s[|s| - 1])
  }

  /** The Remove passes in document order: each one deletes the first entry equal to its target. */
  function RemoveAll(s: seq<string>, targets: seq<string>): seq<string>
    decreases |targets|
  {
    if targets == [] then s else RemoveAll(RemoveFirst(s, targets[0]), targets[1..])
  }

  /*
   * The directory walk of an SDK-style project.
   */

  /** The index of the last separator before `i`, or -1. */
  function LastSeparatorBefore(s: string, i: nat): (k: int)
    requires i <= |s|
    ensures -1 <= k < i
    ensures k >= 0 ==> IsDirectorySeparator(s[k])
    ensures forall j :: k < j < i ==> !IsDirectorySeparator(s[j])
  {
    if i == 0 then -1 else if IsDirectorySeparator(s[i - 1]) then i - 1 else LastSeparatorBefore(s, i - 1)
  }

  /** The text after the last separator of a directory path: how `_DirSearch` names it. */
  function LastSegment(s: string): (name: string)
    ensures forall j :: 0 <= j < |name| ==> !IsDirectorySeparator(name[j])
    ensures |name| <= |s| && s[|s| - |name|..] == name
  {
    var i := LastSeparatorBefore(s, |s|);
    if -1 < i then s[i + 1..] else s
  }

  /** Whether `_DirSearch` goes below the subdirectories of `currentDir`. */
  predicate Recurses(currentDir: string, first: bool)
  {
    !first || (LastSegment(currentDir) != "bin" && LastSegment(currentDir) != "obj")
  }

  /** What `_DirSearch(root, current, result, first)` appends, from the `k`-th subdirectory on. */
  function Search(current: Dir, first: bool, k: nat): seq<string>
    decreases current, |current.subdirs| - k
  {
    if k >= |current.subdirs| then []
    else
      var d := current.subdirs[k];
      assert d in current.subdirs;
      d.files + (if Recurses(current.path, first) then Search(d, false, 0) else []) + Search(current, first, k + 1)
  }

  /** The walks of the project directory's subdirectories, from the `k`-th on. */
  function SearchTop(dirs: seq<Dir>, k: nat): seq<string>
    decreases |dirs| - k
  {
    if k >= |dirs| then [] else Search(dirs[k], true, 0) + SearchTop(dirs, k + 1)
  }

  /** The project directory's own files, each combined with it and resolved. */
  function TopFiles(dir: string, fs: FileSystem, files: seq<string>): seq<string>
    decreases |files|
  {
    if files == [] then [] else [fs.fullPath(Combine(dir, files[0]))] + TopFiles(dir, fs, files[1..])
  }

  /** The enumeration of an SDK-style project, before its Include items. */
  function Enumerated(projectFile: string, fs: FileSystem, root: ProjectRoot): seq<string>
  {
    var dir := DirectoryName(projectFile);
    var listing := fs.tree(dir);
    var targets := RemoveTargets(dir, fs, Removes(ItemGroupChildren(root)));
    RemoveAll(TopFiles(dir, fs, listing.files) + SearchTop(listing.subdirs, 0), targets)
  }

  /** The resolved Remove values: combined with the directory whether rooted or not. */
  function RemoveTargets(dir: string, fs: FileSystem, removes: seq<string>): seq<string>
    decreases |removes|
  {
    if removes == [] then [] else [fs.fullPath(Combine(dir, removes[0]))] + RemoveTargets(dir, fs, removes[1..])
  }

  /** The entries of either kind of project before the exclusions. */
  function Collected(projectFile: string, fs: FileSystem, root: ProjectRoot): seq<string>
  {
    if IsSdkProject(root) then Enumerated(projectFile, fs, root) + Includes(ItemGroupChildren(root))
    else Includes(ItemGroupChildren(root))
  }

  /** What `_GetProjectInputs(projectFile, excludedFiles)` returns, with the excluded files in enumeration order. */
  function ProjectInputsOf(projectFile: string, excluded: seq<string>, fs: FileSystem): seq<string>
  {
    match fs.project(projectFile)
    case None => []
    case Some(root) => Finalize(projectFile, fs, ExcludeAll(projectFile, fs, Collected(projectFile, fs, root), excluded))
  }

  /*
   * The methods.
   */

  /** The loop over the ItemGroup children that appends the Include values. */
  method AddIncludes(result: StringList, children: seq<Item>)
    modifies result
    ensures result.items == old(result.items) + Includes(children)
  {
    ghost var start := result.items;
    var k := 0;
    while k < |children|
      invariant k <= |children|
      invariant start + Includes(children) == result.items + Includes(children[k..])
    {
      assert children[k..][1..] == children[k + 1..];
      if IsInputItem(children[k]) {
        result.Add(children[k].includeAttr.value);
      }
      k := k + 1;
    }
    assert children[k..] == [];
  }

  /** Without over one more entry of `s`. */
  lemma WithoutStep(projectFile: string, fs: FileSystem, s: seq<string>, j: nat, target: string)
    requires j < |s|
    ensures Without(projectFile, fs, s[..j + 1], target)
         == Without(projectFile, fs, s[..j], target)
            + (if Resolved(projectFile, fs, s[j]) == target then [] else [s[j]])
  {
    assert s[..j + 1][..j] == s[..j];
  }

  /** One exclusion pass: the `RemoveAt(i); --i; --ic;` loop takes out every entry that resolves to `target`. */
  method ExcludeFile(result: StringList, projectFile: string, fs: FileSystem, e: string)
    modifies result
    ensures result.items == Without(projectFile, fs, old(result.items), Resolved(projectFile, fs, e))
  {
    var s := e;
    if !IsPathRooted(s) {
      s := Combine(DirectoryName(projectFile), e);
    }
    s := fs.fullPath(s);
    ghost var orig := result.items;
    ghost var j := 0;
    var ic: int := |result.items|;
    var i: int := 0;
    while i < ic
      invariant 0 <= i <= ic == |result.items| && j <= |orig| && ic - i == |orig| - j
      invariant i == |Without(projectFile, fs, orig[..j], s)|
      invariant result.items == Without(projectFile, fs, orig[..j], s) + orig[j..]
      decreases ic - i
    {
      ghost var w := Without(projectFile, fs, orig[..j], s);
      WithoutStep(projectFile, fs, orig, j, s);
      assert result.items[i] == orig[j];
      assert orig[j..][1..] == orig[j + 1..];
      var sc := result.items[i];
      if !IsPathRooted(sc) {
        sc := Combine(DirectoryName(projectFile), sc);
      }
      sc := fs.fullPath(sc);
      assert sc == Resolved(projectFile, fs, orig[j]);
      if s == sc {
        RemoveAtJoin(w, orig[j..]);
        KeepJoin(w, orig[j..]);
        result.RemoveAt(i);
        assert result.items == w + orig[j + 1..];
        i := i - 1;
        ic := ic - 1;
      } else {
        KeepJoin(w, orig[j..]);
      }
      i := i + 1;
      j := j + 1;
    }
    assert orig[..j] == orig;
  }

  /** `foreach (var e in excludedFiles)`: the exclusion passes, in the set's enumeration order. */
  method ExcludeFiles(result: StringList, projectFile: string, fs: FileSystem, excluded: seq<string>)
    modifies result
    ensures result.items == ExcludeAll(projectFile, fs, old(result.items), excluded)
  {
    ghost var goal := ExcludeAll(projectFile, fs, result.items, excluded);
    var k := 0;
    while k < |excluded|
      invariant k <= |excluded|
      invariant ExcludeAll(projectFile, fs, result.items, excluded[k..]) == goal
    {
      assert excluded[k..][1..] == excluded[k + 1..];
      ExcludeFile(result, projectFile, fs, excluded[k]);
      k := k + 1;
    }
  }

  /** Finalize over one more entry of `s`. */
  lemma FinalizeStep(projectFile: string, fs: FileSystem, s: seq<string>, j: nat)
    requires j < |s|
    ensures Finalize(projectFile, fs, s[..j + 1]) == Finalize(projectFile, fs, s[..j]) + Kept(projectFile, fs, s[j])
  {
    assert s[..j + 1][..j] == s[..j];
  }

  /** The final pass: each entry resolved in place, or taken out when it is missing or is the project file. */
  method FinalPass(result: StringList, projectFile: string, fs: FileSystem)
    modifies result
    ensures result.items == Finalize(projectFile, fs, old(result.items))
  {
    ghost var orig := result.items;
    ghost var j := 0;
    var ic: int := |result.items|;
    var i: int := 0;
    while i < ic
      invariant 0 <= i <= ic == |result.items| && j <= |orig| && ic - i == |orig| - j
      invariant i == |Finalize(projectFile, fs, orig[..j])|
      invariant result.items == Finalize(projectFile, fs, orig[..j]) + orig[j..]
      decreases ic - i
    {
      ghost var w := Finalize(projectFile, fs, orig[..j]);
      FinalizeStep(projectFile, fs, orig, j);
      assert result.items[i] == orig[j];
      assert orig[j..][1..] == orig[j + 1..];
      var s := result.items[i];
      if !IsPathRooted(s) {
        s := Combine(DirectoryName(projectFile), s);
      }
      s := fs.fullPath(s);
      assert s == Resolved(projectFile, fs, orig[j]);
      if s == projectFile || s !in fs.existing {
        assert Kept(projectFile, fs, orig[j]) == [];
        RemoveAtJoin(w, orig[j..]);
        KeepJoin(w, orig[j..]);
        result.RemoveAt(i);
        assert result.items == w + orig[j + 1..];
        i := i - 1;
        ic := ic - 1;
      } else {
        assert Kept(projectFile, fs, orig[j]) == [s];
        SetAtJoin(w, orig[j..], s);
        result.SetAt(i, s);
        assert result.items == w + [s] + orig[j + 1..];
      }
      i := i + 1;
      j := j + 1;
    }
    assert orig[..j] == orig;
  }

  lemma JoinAssoc(a: seq<string>, b: seq<string>, c: seq<string>, d: seq<string>)
    ensures (a + b + c) + d == a + (b + c + d)
    ensures c == [] ==> (a + b) + d == a + (b + d) && a + b + [] == a + b
  {
  }

  /** `foreach (string f in Directory.GetFiles(d, "*.*")) result.Add(f);` */
  method AddFiles(result: StringList, files: seq<string>)
    modifies result
    ensures result.items == old(result.items) + files
  {
    ghost var before := result.items;
    var m := 0;
    while m < |files|
      invariant m <= |files|
      invariant result.items == before + files[..m]
    {
      assert files[..m + 1] == files[..m] + [files[m]];
      result.Add(files[m]);
      m := m + 1;
    }
    assert files[..m] == files;
  }

  /** `_DirSearch`: appends the files of each subdirectory of `currentDir`, and walks below it unless told not to. */
  method DirSearch(root: string, currentDir: Dir, result: StringList, first: bool)
    modifies result
    ensures result.items == old(result.items) + Search(currentDir, first, 0)
    decreases currentDir
  {
    ghost var goal := result.items + Search(currentDir, first, 0);
    var k := 0;
    while k < |currentDir.subdirs|
      invariant k <= |currentDir.subdirs|
      invariant result.items + Search(currentDir, first, k) == goal
    {
      var d := currentDir.subdirs[k];
      assert d in currentDir.subdirs;
      ghost var before := result.items;
      ghost var deeper := if Recurses(currentDir.path, first) then Search(d, false, 0) else [];
      assert Search(currentDir, first, k) == d.files + deeper + Search(currentDir, first, k + 1);
      AddFiles(result, d.files);
      var s := currentDir.path;
      var i := LastSeparatorBefore(s, |s|);
      if -1 < i {
        s := s[i + 1..];
      }
      assert s == LastSegment(currentDir.path);
      ghost var rest := Search(currentDir, first, k + 1);
      if !first || (s != "bin" && s != "obj") {
        DirSearch(root, d, result, false);
        assert result.items == before + d.files + deeper;
      } else {
        assert result.items == before + d.files + deeper;
      }
      JoinAssoc(before, d.files, deeper, rest);
      k := k + 1;
    }
  }

  /** `foreach (string d in Directory.GetDirectories(dir)) _DirSearch(dir, d, result);` */
  method SearchSubdirs(result: StringList, dir: string, dirs: seq<Dir>)
    modifies result
    ensures result.items == old(result.items) + SearchTop(dirs, 0)
  {
    ghost var goal := result.items + SearchTop(dirs, 0);
    var k := 0;
    while k < |dirs|
      invariant k <= |dirs|
      invariant result.items + SearchTop(dirs, k) == goal
    {
      ghost var before := result.items;
      ghost var here := Search(dirs[k], true, 0);
      assert SearchTop(dirs, k) == here + SearchTop(dirs, k + 1);
      DirSearch(dir, dirs[k], result, true);
      JoinAssoc(before, here, [], SearchTop(dirs, k + 1));
      k := k + 1;
    }
    assert SearchTop(dirs, k) == [];
  }

  /** The enumeration of an SDK-style project and its items, into the empty result. */
  method EnumerateSdk(result: StringList, projectFile: string, fs: FileSystem, root: ProjectRoot)
    requires result.items == []
    modifies result
    ensures result.items == Enumerated(projectFile, fs, root) + Includes(ItemGroupChildren(root))
  {
    var dir := DirectoryName(projectFile);
    var listing := fs.tree(dir);
    AddTopFiles(result, dir, fs, listing.files);
    assert result.items == TopFiles(dir, fs, listing.files);
    SearchSubdirs(result, dir, listing.subdirs);
    var children := if root.localName == "Project" then root.itemGroupChildren else [];
    assert children == ItemGroupChildren(root);
    RemoveEach(result, dir, fs, Removes(children));
    assert result.items == Enumerated(projectFile, fs, root);
    AddIncludes(result, children);
  }

  /** `_GetProjectInputs`. */
  method GetProjectInputs(projectFile: string, excluded: seq<string>, fs: FileSystem) returns (r: seq<string>)
    ensures r == ProjectInputsOf(projectFile, excluded, fs)
  {
    var element := fs.project(projectFile);
    if element.None? {
      return [];
    }
    var root := element.value;
    var isSdkProj := root.sdk.Some? && root.sdk.value != "";
    var result := new StringList();
    if !isSdkProj {
      var children := if root.localName == "Project" then root.itemGroupChildren else [];
      AddIncludes(result, children);
      assert result.items == Includes(ItemGroupChildren(root));
    } else {
      EnumerateSdk(result, projectFile, fs, root);
    }
    assert result.items == Collected(projectFile, fs, root);
    ExcludeFiles(result, projectFile, fs, excluded);
    if |result.items| == 0 {
      assert Finalize(projectFile, fs, result.items) == [];
      return result.items;
    }
    FinalPass(result, projectFile, fs);
    return result.items;
  }

  /** The loop over the project directory's own files. */
  method AddTopFiles(result: StringList, dir: string, fs: FileSystem, files: seq<string>)
    modifies result
    ensures result.items == old(result.items) + TopFiles(dir, fs, files)
  {
    ghost var start := result.items;
    var i := 0;
    while i < |files|
      invariant i <= |files|
      invariant start + TopFiles(dir, fs, files) == result.items + TopFiles(dir, fs, files[i..])
    {
      assert files[i..][1..] == files[i + 1..];
      var f := Combine(dir, files[i]);
      f := fs.fullPath(f);
      result.Add(f);
      i := i + 1;
    }
  }

  /** The loop over the Remove values: `result.Remove` of each one resolved. */
  method RemoveEach(result: StringList, dir: string, fs: FileSystem, removes: seq<string>)
    modifies result
    ensures result.items == RemoveAll(old(result.items), RemoveTargets(dir, fs, removes))
  {
    ghost var goal := RemoveAll(result.items, RemoveTargets(dir, fs, removes));
    var k := 0;
    while k < |removes|
      invariant k <= |removes|
      invariant RemoveAll(result.items, RemoveTargets(dir, fs, removes[k..])) == goal
    {
      assert removes[k..][1..] == removes[k + 1..];
      var s := removes[k];
      s := Combine(dir, s);
      s := fs.fullPath(s);
      var _ := result.Remove(s);
      k := k + 1;
    }
  }
}
