/**
 * What the collection of a project's inputs promises: the exclusion passes together remove
 * exactly the entries that resolve to an excluded file, whatever order the set enumerates
 * them in; the final pass keeps exactly the resolved entries that exist and are not the
 * project file; a Remove item deletes one entry only; and the directory walk lists only
 * files below the first-level directories, going deeper unless the first level is `bin` or `obj`.
 */
module ProjectInputsProperties {
  import opened Wrappers
  import opened Strings
  import opened Paths
  import opened Environment
  import opened ProjectInputs

  /*
   * Exclusion (cppkg/Program.cs:329-357, 402-432).
   */

  /** The resolved forms of the excluded files. */
  function Targets(projectFile: string, fs: FileSystem, excluded: seq<string>): set<string>
  {
    set e | e in excluded :: Resolved(projectFile, fs, e)
  }

  /** The entries whose resolved form is none of `targets`, in order: a reference filter. */
  function Outside(projectFile: string, fs: FileSystem, s: seq<string>, targets: set<string>): seq<string>
    decreases |s|
  {
    if s == [] then []
    else
      Outside(projectFile, fs, s[..|s| - 1], targets)
      + (if Resolved(projectFile, fs, s[|s| - 1]) in targets then [] else [s[|s| - 1]])
  }

  lemma {:induction false} OutsideNothing(projectFile: string, fs: FileSystem, s: seq<string>)
    ensures Outside(projectFile, fs, s, {}) == s
    decreases |s|
  {
    if s != [] {
      OutsideNothing(projectFile, fs, s[..|s| - 1]);
      assert s[..|s| - 1] + [s[|s| - 1]] == s;
    }
  }

  /** One pass after a filter is the filter by one more target. */
  lemma {:induction false} WithoutOutside(projectFile: string, fs: FileSystem, s: seq<string>, targets: set<string>, t: string)
    ensures Without(projectFile, fs, Outside(projectFile, fs, s, targets), t) == Outside(projectFile, fs, s, targets + {t})
    decreases |s|
  {
    if s != [] {
      var init := s[..|s| - 1];
      var last := s[|s| - 1];
      var o := Outside(projectFile, fs, init, targets);
      WithoutOutside(projectFile, fs, init, targets, t);
      if Resolved(projectFile, fs, last) in targets {
        assert Outside(projectFile, fs, s, targets) == o + [];
        assert o + [] == o;
      } else {
        var o' := o + [last];
        assert Outside(projectFile, fs, s, targets) == o';
        assert o'[..|o'| - 1] == o;
      }
    }
  }

  lemma TargetsCons(projectFile: string, fs: FileSystem, excluded: seq<string>)
    requires excluded != []
    ensures Targets(projectFile, fs, excluded)
         == {Resolved(projectFile, fs, excluded[0])} + Targets(projectFile, fs, excluded[1..])
  {
    forall x | x in Targets(projectFile, fs, excluded)
      ensures x in {Resolved(projectFile, fs, excluded[0])} + Targets(projectFile, fs, excluded[1..])
    {
      var e :| e in excluded && Resolved(projectFile, fs, e) == x;
      if e != excluded[0] {
        var k :| 0 <= k < |excluded| && excluded[k] == e;
        assert excluded[1..][k - 1] == e;
      }
    }
  }

  lemma {:induction false} ExcludeAllOutside(projectFile: string, fs: FileSystem, s: seq<string>, targets: set<string>, excluded: seq<string>)
    ensures ExcludeAll(projectFile, fs, Outside(projectFile, fs, s, targets), excluded)
         == Outside(projectFile, fs, s, targets + Targets(projectFile, fs, excluded))
    decreases |excluded|
  {
    if excluded == [] {
      assert targets + Targets(projectFile, fs, excluded) == targets;
    } else {
      var t := Resolved(projectFile, fs, excluded[0]);
      WithoutOutside(projectFile, fs, s, targets, t);
      ExcludeAllOutside(projectFile, fs, s, targets + {t}, excluded[1..]);
      TargetsCons(projectFile, fs, excluded);
      assert targets + {t} + Targets(projectFile, fs, excluded[1..]) == targets + Targets(projectFile, fs, excluded);
    }
  }

  /** The exclusion passes together are one order-preserving filter by the set of excluded targets. */
  lemma ExcludeAllIsFilter(projectFile: string, fs: FileSystem, s: seq<string>, excluded: seq<string>)
    ensures ExcludeAll(projectFile, fs, s, excluded) == Outside(projectFile, fs, s, Targets(projectFile, fs, excluded))
  {
    OutsideNothing(projectFile, fs, s);
    ExcludeAllOutside(projectFile, fs, s, {}, excluded);
    assert {} + Targets(projectFile, fs, excluded) == Targets(projectFile, fs, excluded);
  }

  /** The order in which the excluded-files set is enumerated does not matter. */
  lemma ExclusionOrderFree(projectFile: string, fs: FileSystem, s: seq<string>, ex1: seq<string>, ex2: seq<string>)
    requires forall e :: e in ex1 <==> e in ex2
    ensures ExcludeAll(projectFile, fs, s, ex1) == ExcludeAll(projectFile, fs, s, ex2)
  {
    ExcludeAllIsFilter(projectFile, fs, s, ex1);
    ExcludeAllIsFilter(projectFile, fs, s, ex2);
    assert Targets(projectFile, fs, ex1) == Targets(projectFile, fs, ex2);
  }

  /** An entry survives the filter exactly when it does not resolve to a target. */
  lemma {:induction false} OutsideMembers(projectFile: string, fs: FileSystem, s: seq<string>, targets: set<string>, x: string)
    ensures x in Outside(projectFile, fs, s, targets) <==> x in s && Resolved(projectFile, fs, x) !in targets
    decreases |s|
  {
    if s != [] {
      var init := s[..|s| - 1];
      OutsideMembers(projectFile, fs, init, targets, x);
      assert s == init + [s[|s| - 1]];
    }
  }

  /** An entry left when no target matches any entry: the whole list, in order. */
  lemma {:induction false} OutsideUntouched(projectFile: string, fs: FileSystem, s: seq<string>, targets: set<string>)
    requires forall k :: 0 <= k < |s| ==> Resolved(projectFile, fs, s[k]) !in targets
    ensures Outside(projectFile, fs, s, targets) == s
    decreases |s|
  {
    if s != [] {
      OutsideUntouched(projectFile, fs, s[..|s| - 1], targets);
      assert s[..|s| - 1] + [s[|s| - 1]] == s;
    }
  }

  /*
   * The final pass (cppkg/Program.cs:434-456).
   */

  /** What the final pass keeps is what it resolved from an entry, and it exists and is not the project file. */
  lemma {:induction false} FinalizeSound(projectFile: string, fs: FileSystem, s: seq<string>, x: string)
    requires x in Finalize(projectFile, fs, s)
    ensures x in fs.existing && x != projectFile
    ensures exists y :: y in s && Resolved(projectFile, fs, y) == x
    decreases |s|
  {
    var init := s[..|s| - 1];
    var last := s[|s| - 1];
    if x in Finalize(projectFile, fs, init) {
      FinalizeSound(projectFile, fs, init, x);
      var y :| y in init && Resolved(projectFile, fs, y) == x;
      assert y in s;
    } else {
      assert x in Kept(projectFile, fs, last);
      assert last in s;
    }
  }

  /** Every entry whose resolved form exists and is not the project file comes out resolved. */
  lemma {:induction false} FinalizeComplete(projectFile: string, fs: FileSystem, s: seq<string>, y: string)
    requires y in s
    requires Resolved(projectFile, fs, y) in fs.existing && Resolved(projectFile, fs, y) != projectFile
    ensures Resolved(projectFile, fs, y) in Finalize(projectFile, fs, s)
    decreases |s|
  {
    var init := s[..|s| - 1];
    if y == s[|s| - 1] {
      assert Kept(projectFile, fs, y) == [Resolved(projectFile, fs, y)];
    } else {
      assert s == init + [s[|s| - 1]];
      FinalizeComplete(projectFile, fs, init, y);
    }
  }

  /** `_GetProjectInputs` returns only files that exist, never the project file, each from a
   * collected entry that no excluded file resolves to; and all of those. */
  lemma ProjectInputsExact(projectFile: string, excluded: seq<string>, fs: FileSystem, root: ProjectRoot, x: string)
    requires fs.project(projectFile) == Some(root)
    ensures x in ProjectInputsOf(projectFile, excluded, fs)
        <==> x in fs.existing && x != projectFile
             && exists y :: y in Collected(projectFile, fs, root) && Resolved(projectFile, fs, y) == x
                           && x !in Targets(projectFile, fs, excluded)
  {
    var c := Collected(projectFile, fs, root);
    var t := Targets(projectFile, fs, excluded);
    ExcludeAllIsFilter(projectFile, fs, c, excluded);
    var kept := Outside(projectFile, fs, c, t);
    if x in ProjectInputsOf(projectFile, excluded, fs) {
      FinalizeSound(projectFile, fs, kept, x);
      var y :| y in kept && Resolved(projectFile, fs, y) == x;
      OutsideMembers(projectFile, fs, c, t, y);
    }
    if x in fs.existing && x != projectFile
       && exists y :: y in c && Resolved(projectFile, fs, y) == x && x !in t {
      var y :| y in c && Resolved(projectFile, fs, y) == x && x !in t;
      OutsideMembers(projectFile, fs, c, t, y);
      FinalizeComplete(projectFile, fs, kept, y);
    }
  }

  /** A project file without an element has no inputs. */
  lemma NoElementNoInputs(projectFile: string, excluded: seq<string>, fs: FileSystem, x: string)
    requires fs.project(projectFile).None?
    ensures x !in ProjectInputsOf(projectFile, excluded, fs)
  {
    assert ProjectInputsOf(projectFile, excluded, fs) == [];
  }

  /*
   * Include and Remove items (cppkg/Program.cs:311-326, 379-401).
   */

  /** The Include values collected are those of the input items, and each of them is. */
  lemma {:induction false} IncludesMembers(children: seq<Item>, v: string)
    ensures v in Includes(children)
        <==> exists k :: 0 <= k < |children| && IsInputItem(children[k]) && children[k].includeAttr.value == v
    decreases |children|
  {
    if children != [] {
      IncludesMembers(children[1..], v);
      if exists k :: 0 <= k < |children| && IsInputItem(children[k]) && children[k].includeAttr.value == v {
        var k :| 0 <= k < |children| && IsInputItem(children[k]) && children[k].includeAttr.value == v;
        if k > 0 {
          assert children[1..][k - 1] == children[k];
        }
      }
      if exists k :: 0 <= k < |children[1..]| && IsInputItem(children[1..][k]) && children[1..][k].includeAttr.value == v {
        var k :| 0 <= k < |children[1..]| && IsInputItem(children[1..][k]) && children[1..][k].includeAttr.value == v;
        assert children[k + 1] == children[1..][k];
      }
    }
  }

  /** A Remove deletes one entry equal to its target, no more: the multiset loses exactly one copy. */
  lemma {:induction false} RemoveFirstOne(s: seq<string>, x: string)
    ensures multiset(RemoveFirst(s, x)) == multiset(s) - multiset{x}
    decreases |s|
  {
    if s != [] {
      assert s == [s[0]] + s[1..];
      if s[0] != x {
        RemoveFirstOne(s[1..], x);
      }
    }
  }

  /*
   * The directory walk (cppkg/Program.cs:361-372, 458-474).
   */

  /** `x` is a file of a directory strictly below `d`. */
  predicate Below(d: Dir, x: string)
    decreases d
  {
    exists k :: 0 <= k < |d.subdirs| && (x in d.subdirs[k].files || Below(d.subdirs[k], x))
  }

  /** Everything the walk of `d` lists lies strictly below `d`. */
  lemma {:induction false} SearchBelow(d: Dir, first: bool, k: nat, x: string)
    requires x in Search(d, first, k)
    ensures Below(d, x)
    decreases d, |d.subdirs| - k
  {
    var c := d.subdirs[k];
    assert c in d.subdirs;
    var deeper := if Recurses(d.path, first) then Search(c, false, 0) else [];
    assert Search(d, first, k) == c.files + deeper + Search(d, first, k + 1);
    if x in c.files {
    } else if x in deeper {
      SearchBelow(c, false, 0, x);
    } else {
      SearchBelow(d, first, k + 1, x);
    }
  }

  /** A file lying directly in a first-level directory, and nowhere below it, is never listed. */
  lemma FirstLevelFilesSkipped(d: Dir, x: string)
    requires x in d.files && !Below(d, x)
    ensures x !in Search(d, true, 0)
  {
    if x in Search(d, true, 0) {
      SearchBelow(d, true, 0, x);
    }
  }

  /** The files of the subdirectories of `d`, from the `k`-th on, without going deeper. */
  function ChildFiles(d: Dir, k: nat): seq<string>
    decreases |d.subdirs| - k
  {
    if k >= |d.subdirs| then [] else d.subdirs[k].files + ChildFiles(d, k + 1)
  }

  /** A first-level `bin` or `obj`: only the files of its own subdirectories are listed. */
  lemma {:induction false} BinObjShallow(d: Dir, k: nat)
    requires LastSegment(d.path) == "bin" || LastSegment(d.path) == "obj"
    ensures Search(d, true, k) == ChildFiles(d, k)
    decreases |d.subdirs| - k
  {
    if k < |d.subdirs| {
      BinObjShallow(d, k + 1);
      assert Search(d, true, k) == d.subdirs[k].files + [] + Search(d, true, k + 1);
    }
  }

  /** Any other first-level directory is walked as deeply as the levels below it: all the way down. */
  lemma {:induction false} OtherDirsDeep(d: Dir, k: nat)
    requires LastSegment(d.path) != "bin" && LastSegment(d.path) != "obj"
    ensures Search(d, true, k) == Search(d, false, k)
    decreases |d.subdirs| - k
  {
    if k < |d.subdirs| {
      OtherDirsDeep(d, k + 1);
    }
  }

  /** Only the last segment of the first-level path decides, compared case-sensitively. */
  lemma BinNameIsCaseSensitive()
    ensures Recurses("C:\\src\\Bin", true) && !Recurses("C:\\src\\bin", true) && !Recurses("C:\\src/obj", true)
  {
    assert LastSeparatorBefore("C:\\src\\Bin", 10) == 6;
    assert LastSeparatorBefore("C:\\src\\bin", 10) == 6;
    assert LastSeparatorBefore("C:\\src/obj", 10) == 6;
    assert "C:\\src\\Bin"[7..] == "Bin";
    assert "C:\\src\\bin"[7..] == "bin";
    assert "C:\\src/obj"[7..] == "obj";
  }
}
