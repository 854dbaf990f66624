/**
 * What the solution-file scan promises: every project and item it returns exists and they
 * come in the order of the file; a non-folder declaration adds its one project; a solution
 * folder adds nothing to the projects and the items of its section, in order; and a folder
 * block cut off by the end of the file is the error.
 */
module SolutionProperties {
  import opened Wrappers
  import opened Strings
  import opened Paths
  import opened Environment
  import opened Lexer
  import opened LexerProperties
  import opened SolutionParser

  /** Every path found so far exists. */
  predicate AllExist(acc: SolutionStuff, fs: FileSystem)
  {
    (forall x :: x in acc.projects ==> x in fs.existing) && (forall x :: x in acc.files ==> x in fs.existing)
  }

  /** The scan only appends: `r` starts with what `acc` had. */
  predicate Extends(acc: SolutionStuff, r: SolutionStuff)
  {
    acc.projects <= r.projects && acc.files <= r.files
  }

  lemma AddProjectKeeps(acc: SolutionStuff, dir: string, fs: FileSystem, path: string)
    requires AllExist(acc, fs)
    ensures AllExist(AddProject(acc, dir, fs, path), fs) && Extends(acc, AddProject(acc, dir, fs, path))
  {
  }

  lemma AddItemKeeps(acc: SolutionStuff, dir: string, fs: FileSystem, line: string)
    requires AllExist(acc, fs)
    ensures AllExist(AddItem(acc, dir, fs, line), fs) && Extends(acc, AddItem(acc, dir, fs, line))
  {
  }

  lemma ExtendsTrans(a: SolutionStuff, b: SolutionStuff, c: SolutionStuff)
    requires Extends(a, b) && Extends(b, c)
    ensures Extends(a, c)
  {
  }

  /*
   * A successful scan from found paths that exist returns paths that all exist, after the
   * ones it started with (cppkg/Program.cs:222-225, 266-270): one lemma per scan function.
   */

  lemma {:induction false} ScanTopKeeps(lines: seq<string>, dir: string, fs: FileSystem, i: nat, acc: SolutionStuff)
    requires i <= |lines| && AllExist(acc, fs)
    requires ScanTop(lines, dir, fs, i, acc).Success?
    ensures AllExist(ScanTop(lines, dir, fs, i, acc).value, fs)
    ensures Extends(acc, ScanTop(lines, dir, fs, i, acc).value)
    decreases |lines| - i, 2
  {
    if i < |lines| {
      TopLineKeeps(lines, dir, fs, i, acc);
    }
  }

  lemma {:induction false} TopLineKeeps(lines: seq<string>, dir: string, fs: FileSystem, i: nat, acc: SolutionStuff)
    requires i < |lines| && AllExist(acc, fs)
    requires TopLine(lines, dir, fs, i, acc).Success?
    ensures AllExist(TopLine(lines, dir, fs, i, acc).value, fs)
    ensures Extends(acc, TopLine(lines, dir, fs, i, acc).value)
    decreases |lines| - i, 1
  {
    if OpensProject(lines[i]) {
      TopProjectKeeps(lines, dir, fs, i, acc);
    } else {
      ScanTopKeeps(lines, dir, fs, i + 1, acc);
    }
  }

  lemma {:induction false} TopProjectKeeps(lines: seq<string>, dir: string, fs: FileSystem, i: nat, acc: SolutionStuff)
    requires i < |lines| && AllExist(acc, fs)
    requires TopProject(lines, dir, fs, i, acc).Success?
    ensures AllExist(TopProject(lines, dir, fs, i, acc).value, fs)
    ensures Extends(acc, TopProject(lines, dir, fs, i, acc).value)
    decreases |lines| - i, 0
  {
    match ProjectLineKind(lines[i])
    case NotProject =>
      ScanTopKeeps(lines, dir, fs, i + 1, acc);
    case RealProject(path) =>
      var next := AddProject(acc, dir, fs, path);
      AddProjectKeeps(acc, dir, fs, path);
      ScanTopKeeps(lines, dir, fs, i + 1, next);
      ExtendsTrans(acc, next, ScanTop(lines, dir, fs, i + 1, next).value);
    case FolderProject =>
      ScanSeekKeeps(lines, dir, fs, i + 1, acc);
  }

  lemma {:induction false} ScanSeekKeeps(lines: seq<string>, dir: string, fs: FileSystem, i: nat, acc: SolutionStuff)
    requires i <= |lines| && AllExist(acc, fs)
    requires ScanSeek(lines, dir, fs, i, acc).Success?
    ensures AllExist(ScanSeek(lines, dir, fs, i, acc).value, fs)
    ensures Extends(acc, ScanSeek(lines, dir, fs, i, acc).value)
    decreases |lines| - i, 3
  {
    if IsEndProject(lines[i]) {
      ScanTopKeeps(lines, dir, fs, i + 1, acc);
    } else if OpensSection(lines[i]) {
      ScanFirstKeeps(lines, dir, fs, i + 1, acc);
    } else {
      ScanSeekKeeps(lines, dir, fs, i + 1, acc);
    }
  }

  lemma {:induction false} ScanFirstKeeps(lines: seq<string>, dir: string, fs: FileSystem, i: nat, acc: SolutionStuff)
    requires i <= |lines| && AllExist(acc, fs)
    requires ScanFirst(lines, dir, fs, i, acc).Success?
    ensures AllExist(ScanFirst(lines, dir, fs, i, acc).value, fs)
    ensures Extends(acc, ScanFirst(lines, dir, fs, i, acc).value)
    decreases |lines| - i, 3
  {
    if i < |lines| {
      if IsEndProject(lines[i]) {
        ScanTopKeeps(lines, dir, fs, i + 1, acc);
      } else {
        var next := AddItem(acc, dir, fs, lines[i]);
        AddItemKeeps(acc, dir, fs, lines[i]);
        ScanSectionKeeps(lines, dir, fs, i + 1, next);
        ExtendsTrans(acc, next, ScanSection(lines, dir, fs, i + 1, next).value);
      }
    }
  }

  lemma {:induction false} ScanSectionKeeps(lines: seq<string>, dir: string, fs: FileSystem, i: nat, acc: SolutionStuff)
    requires i <= |lines| && AllExist(acc, fs)
    requires ScanSection(lines, dir, fs, i, acc).Success?
    ensures AllExist(ScanSection(lines, dir, fs, i, acc).value, fs)
    ensures Extends(acc, ScanSection(lines, dir, fs, i, acc).value)
    decreases |lines| - i, 3
  {
    if i < |lines| {
      if EndsSection(lines[i]) {
        ScanTopKeeps(lines, dir, fs, i + 1, acc);
      } else {
        var next := AddItem(acc, dir, fs, lines[i]);
        AddItemKeeps(acc, dir, fs, lines[i]);
        ScanSectionKeeps(lines, dir, fs, i + 1, next);
        ExtendsTrans(acc, next, ScanSection(lines, dir, fs, i + 1, next).value);
      }
    }
  }

  /** Whatever _GetSolutionStuff returns exists. */
  lemma SolutionContentsExist(solutionFile: string, fs: FileSystem)
    requires SolutionContents(solutionFile, fs).Success?
    ensures AllExist(SolutionContents(solutionFile, fs).value, fs)
  {
    ScanTopKeeps(fs.lines(solutionFile), DirectoryName(solutionFile), fs, 0, SolutionStuff([], []));
  }

  /*
   * One project declaration (cppkg/Program.cs:202-249).
   */

  /** A well-formed declaration of a project that is not a solution folder adds its one path, if it exists. */
  lemma ProjectDeclarationAdds(lines: seq<string>, dir: string, fs: FileSystem, i: nat, acc: SolutionStuff,
                               projectType: string, name: string, path: string, rest: string)
    requires i < |lines| && lines[i] == ProjectLine(projectType, name, path, rest)
    requires rest != [] ==> rest[0] != '"'
    requires Upper(Quoted(projectType)) != FolderTypeGuid
    ensures ScanTop(lines, dir, fs, i, acc) == ScanTop(lines, dir, fs, i + 1, AddProject(acc, dir, fs, path))
    ensures AddProject(acc, dir, fs, path).projects
         == acc.projects + (if Resolve(dir, fs, path) in fs.existing then [Resolve(dir, fs, path)] else [])
  {
    ProjectLineRoundTrip(projectType, name, path, rest);
    assert ScanTop(lines, dir, fs, i, acc) == TopProject(lines, dir, fs, i, acc);
  }

  /** A well-formed declaration with the folder type adds nothing and opens the folder's block. */
  lemma FolderDeclarationOpens(lines: seq<string>, dir: string, fs: FileSystem, i: nat, acc: SolutionStuff,
                               projectType: string, name: string, path: string, rest: string)
    requires i < |lines| && lines[i] == ProjectLine(projectType, name, path, rest)
    requires rest != [] ==> rest[0] != '"'
    requires Upper(Quoted(projectType)) == FolderTypeGuid
    ensures ScanTop(lines, dir, fs, i, acc) == ScanSeek(lines, dir, fs, i + 1, acc)
  {
    ProjectLineRoundTrip(projectType, name, path, rest);
    assert ScanTop(lines, dir, fs, i, acc) == TopProject(lines, dir, fs, i, acc);
  }

  /** A project line whose lexing fails, at any delimiter, adds nothing. */
  lemma MalformedDeclarationSkipped(lines: seq<string>, dir: string, fs: FileSystem, i: nat, acc: SolutionStuff)
    requires i < |lines| && ProjectLineKind(lines[i]).NotProject?
    ensures ScanTop(lines, dir, fs, i, acc) == ScanTop(lines, dir, fs, i + 1, acc)
  {
    assert ScanTop(lines, dir, fs, i, acc) == TopLine(lines, dir, fs, i, acc);
  }

  /*
   * A solution folder's block (cppkg/Program.cs:250-278).
   */

  /** The items a run of section lines adds, one line after the other. */
  function AddItems(acc: SolutionStuff, dir: string, fs: FileSystem, items: seq<string>): SolutionStuff
    decreases |items|
  {
    if items == [] then acc else AddItems(AddItem(acc, dir, fs, items[0]), dir, fs, items[1..])
  }

  /** The resolved key of a section line that lexes as an item and exists. */
  function ItemFile(dir: string, fs: FileSystem, line: string): seq<string>
  {
    match ItemLinePath(line)
    case Some(key) => if Resolve(dir, fs, key) in fs.existing then [Resolve(dir, fs, key)] else []
    case None => []
  }

  /** The resolved keys of the lines of a section that lex as items and exist, in order. */
  function ItemFiles(dir: string, fs: FileSystem, items: seq<string>): seq<string>
    decreases |items|
  {
    if items == [] then [] else ItemFile(dir, fs, items[0]) + ItemFiles(dir, fs, items[1..])
  }

  lemma AddItemFile(acc: SolutionStuff, dir: string, fs: FileSystem, line: string)
    ensures AddItem(acc, dir, fs, line) == SolutionStuff(acc.projects, acc.files + ItemFile(dir, fs, line))
  {
  }

  /** The items of a section go to the files, in order, each one that exists, and the projects stay. */
  lemma {:induction false} AddItemsAppends(acc: SolutionStuff, dir: string, fs: FileSystem, items: seq<string>)
    ensures AddItems(acc, dir, fs, items) == SolutionStuff(acc.projects, acc.files + ItemFiles(dir, fs, items))
    decreases |items|
  {
    if items != [] {
      var next := AddItem(acc, dir, fs, items[0]);
      AddItemFile(acc, dir, fs, items[0]);
      AddItemsAppends(next, dir, fs, items[1..]);
      AppendAfter(acc, ItemFile(dir, fs, items[0]), ItemFiles(dir, fs, items[1..]), next, AddItems(next, dir, fs, items[1..]));
    }
  }

  lemma AppendAfter(acc: SolutionStuff, here: seq<string>, later: seq<string>, next: SolutionStuff, last: SolutionStuff)
    requires next == SolutionStuff(acc.projects, acc.files + here)
    requires last == SolutionStuff(next.projects, next.files + later)
    ensures last == SolutionStuff(acc.projects, acc.files + (here + later))
  {
    assert (acc.files + here) + later == acc.files + (here + later);
  }

  /** The section scan adds every line up to the one that ends the section. */
  lemma {:induction false} SectionRun(lines: seq<string>, dir: string, fs: FileSystem, i: nat, k: nat, acc: SolutionStuff)
    requires i <= k <= |lines|
    requires forall j :: i <= j < k ==> !EndsSection(lines[j])
    ensures ScanSection(lines, dir, fs, i, acc) == ScanSection(lines, dir, fs, k, AddItems(acc, dir, fs, lines[i..k]))
    decreases k - i
  {
    if i < k {
      assert lines[i..k][0] == lines[i] && lines[i..k][1..] == lines[i + 1..k];
      SectionRun(lines, dir, fs, i + 1, k, AddItem(acc, dir, fs, lines[i]));
    }
  }

  /** The search for the ProjectSection skips every other line of the block. */
  lemma {:induction false} SeekRun(lines: seq<string>, dir: string, fs: FileSystem, i: nat, k: nat, acc: SolutionStuff)
    requires i <= k <= |lines|
    requires forall j :: i <= j < k ==> !IsEndProject(lines[j]) && !OpensSection(lines[j])
    ensures ScanSeek(lines, dir, fs, i, acc) == ScanSeek(lines, dir, fs, k, acc)
    decreases k - i
  {
    if i < k {
      SeekRun(lines, dir, fs, i + 1, k, acc);
    }
  }

  /** A folder block with neither `EndProject` nor `ProjectSection` before the end of the file fails (line 255). */
  lemma UnterminatedFolderFails(lines: seq<string>, dir: string, fs: FileSystem, i: nat, acc: SolutionStuff)
    requires i <= |lines|
    requires forall j :: i <= j < |lines| ==> !IsEndProject(lines[j]) && !OpensSection(lines[j])
    ensures ScanSeek(lines, dir, fs, i, acc) == Failure(EndOfFileInFolder)
  {
    SeekRun(lines, dir, fs, i, |lines|, acc);
  }

  /**
   * The block of a solution folder whose ProjectSection is at line `s` and whose section ends at
   * line `k`: the scan resumes after line `k`, with the items of lines s+1 .. k-1 added in order
   * and no project added.
   */
  lemma FolderBlockItems(lines: seq<string>, dir: string, fs: FileSystem, i: nat, s: nat, k: nat, acc: SolutionStuff)
    requires i <= s < k < |lines|
    requires forall j :: i <= j < s ==> !IsEndProject(lines[j]) && !OpensSection(lines[j])
    requires OpensSection(lines[s]) && !IsEndProject(lines[s])
    requires s + 1 < k && !IsEndProject(lines[s + 1])
    requires forall j :: s + 1 < j < k ==> !EndsSection(lines[j])
    requires EndsSection(lines[k])
    ensures ScanSeek(lines, dir, fs, i, acc)
         == ScanTop(lines, dir, fs, k + 1, SolutionStuff(acc.projects, acc.files + ItemFiles(dir, fs, lines[s + 1..k])))
  {
    SeekRun(lines, dir, fs, i, s, acc);
    var first := AddItem(acc, dir, fs, lines[s + 1]);
    SectionRun(lines, dir, fs, s + 2, k, first);
    assert lines[s + 1..k][0] == lines[s + 1] && lines[s + 1..k][1..] == lines[s + 2..k];
    AddItemsAppends(acc, dir, fs, lines[s + 1..k]);
  }

  /** A section cut off by the end of the file ends the scan with its items added. */
  lemma SectionToEnd(lines: seq<string>, dir: string, fs: FileSystem, i: nat, acc: SolutionStuff)
    requires i <= |lines|
    requires forall j :: i <= j < |lines| ==> !EndsSection(lines[j])
    ensures ScanSection(lines, dir, fs, i, acc)
         == Success(SolutionStuff(acc.projects, acc.files + ItemFiles(dir, fs, lines[i..])))
  {
    SectionRun(lines, dir, fs, i, |lines|, acc);
    AddItemsAppends(acc, dir, fs, lines[i..]);
    assert lines[i..|lines|] == lines[i..];
  }
}
