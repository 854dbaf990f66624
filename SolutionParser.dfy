/**
 * The solution-file scan of `_GetSolutionStuff` (cppkg/Program.cs:189-287): the projects a
 * solution lists and the items of its solution folders, resolved and kept when they exist.
 */
module SolutionParser {
  import opened Wrappers
  import opened Strings
  import opened Paths
  import opened Environment
  import opened Lexer

  /** The two lists the scan returns. */
  datatype SolutionStuff = SolutionStuff(projects: seq<string>, files: seq<string>)

  /** A solution folder's block ends with the file before its ProjectSection or EndProject: a NullReferenceException. */
  datatype SolutionError = EndOfFileInFolder

  /** StreamReader.ReadLine over the lines of a file: None once they are all read. */
  datatype LineReader = LineReader(lines: seq<string>, next: nat)
  {
    predicate Valid() { next <= |lines| }

    method ReadLine() returns (sr: LineReader, line: Option<string>)
      requires Valid()
      ensures sr.Valid() && sr.lines == lines
      ensures next < |lines| ==> sr.next == next + 1 && line == Some(lines[next])
      ensures next == |lines| ==> sr.next == next && line == None
    {
      if next < |lines| {
        return this.(next := next + 1), Some(lines[next]);
      }
      return this, None;
    }
  }

  /** A path relative to the solution's directory, resolved with Path.GetFullPath. */
  function Resolve(dir: string, fs: FileSystem, path: string): string
  {
    fs.fullPath(Combine(dir, path))
  }

  /** A project path is kept when its resolved form exists. */
  function AddProject(acc: SolutionStuff, dir: string, fs: FileSystem, path: string): SolutionStuff
  {
    var full := Resolve(dir, fs, path);
    if full in fs.existing then acc.(projects := acc.projects + [full]) else acc
  }

  /** A ProjectSection line `key = value` adds its resolved key when it exists. */
  function AddItem(acc: SolutionStuff, dir: string, fs: FileSystem, line: string): SolutionStuff
  {
    match ItemLinePath(line)
    case None => acc
    case Some(path) =>
      var full := Resolve(dir, fs, path);
      if full in fs.existing then acc.(files := acc.files + [full]) else acc
  }

  /** The trimmed, lower-cased form in which the folder-block loops test a line. */
  function Folded(line: string): string
  {
    Lower(Trim(line))
  }

  /** A line that may declare a project: it starts with `project`, in any case. */
  predicate OpensProject(line: string)
  {
    LowerStartsWith(line, "project")
  }

  /** The `EndProject` line of a project block. */
  predicate IsEndProject(line: string)
  {
    TrimmedLowerEquals(line, "endproject")
  }

  /** The `ProjectSection(...)` line of a solution folder. */
  predicate OpensSection(line: string)
  {
    TrimmedLowerStartsWith(line, "projectsection")
  }

  /** A line that ends the items of a ProjectSection. */
  predicate EndsSection(line: string)
  {
    IsEndProject(line) || TrimmedLowerStartsWith(line, "endprojectsection")
  }

  /*
   * The four keyword tests are the lower-cased comparisons of the loops: cppkg/Program.cs:202
   * for a project line, 252-254 in a solution folder's block, 256-258 and 273-275 in its section.
   */

  lemma OpensProjectTest(line: string)
    ensures OpensProject(line) <==> StartsWith(Lower(line), "project")
  {
    LowerStartsWithLower(line, "project");
  }

  lemma IsEndProjectTest(line: string)
    ensures IsEndProject(line) <==> Folded(line) == "endproject"
  {
    TrimmedLowerEqualsLower(line, "endproject");
  }

  lemma OpensSectionTest(line: string)
    ensures OpensSection(line) <==> StartsWith(Folded(line), "projectsection")
  {
    TrimmedLowerStartsWithLower(line, "projectsection");
  }

  lemma EndsSectionTest(line: string)
    ensures EndsSection(line) <==> Folded(line) == "endproject" || StartsWith(Folded(line), "endprojectsection")
  {
    IsEndProjectTest(line);
    TrimmedLowerStartsWithLower(line, "endprojectsection");
  }

  /*
   * The scan of the solution's lines from line `i`, with `acc` found so far, one function
   * per place the source's loops can stand before reading line `i`.
   */

  /** Between project declarations. */
  function ScanTop(lines: seq<string>, dir: string, fs: FileSystem, i: nat, acc: SolutionStuff)
    : Result<SolutionStuff, SolutionError>
    requires i <= |lines|
    decreases |lines| - i, 2
  {
    if i == |lines| then Success(acc) else TopLine(lines, dir, fs, i, acc)
  }

  /** A line between project declarations: one that starts with `project` is lexed. */
  function TopLine(lines: seq<string>, dir: string, fs: FileSystem, i: nat, acc: SolutionStuff)
    : Result<SolutionStuff, SolutionError>
    requires i < |lines|
    decreases |lines| - i, 1
  {
    if OpensProject(lines[i]) then TopProject(lines, dir, fs, i, acc) else ScanTop(lines, dir, fs, i + 1, acc)
  }

  /** A lexed project line adds its path or opens a solution folder's block. */
  function TopProject(lines: seq<string>, dir: string, fs: FileSystem, i: nat, acc: SolutionStuff)
    : Result<SolutionStuff, SolutionError>
    requires i < |lines|
    decreases |lines| - i, 0
  {
    match ProjectLineKind(lines[i])
    case NotProject => ScanTop(lines, dir, fs, i + 1, acc)
    case RealProject(path) => ScanTop(lines, dir, fs, i + 1, AddProject(acc, dir, fs, path))
    case FolderProject => ScanSeek(lines, dir, fs, i + 1, acc)
  }

  /** In a solution folder's block, looking for its ProjectSection: the end of the file here is the error. */
  function ScanSeek(lines: seq<string>, dir: string, fs: FileSystem, i: nat, acc: SolutionStuff)
    : Result<SolutionStuff, SolutionError>
    requires i <= |lines|
    decreases |lines| - i
  {
    if i == |lines| then Failure(EndOfFileInFolder)
    else if IsEndProject(lines[i]) then ScanTop(lines, dir, fs, i + 1, acc)
    else if OpensSection(lines[i]) then ScanFirst(lines, dir, fs, i + 1, acc)
    else ScanSeek(lines, dir, fs, i + 1, acc)
  }

  /** On the line after `ProjectSection`: an item unless it is `EndProject`. */
  function ScanFirst(lines: seq<string>, dir: string, fs: FileSystem, i: nat, acc: SolutionStuff)
    : Result<SolutionStuff, SolutionError>
    requires i <= |lines|
    decreases |lines| - i
  {
    if i == |lines| then Success(acc)
    else if IsEndProject(lines[i]) then ScanTop(lines, dir, fs, i + 1, acc)
    else ScanSection(lines, dir, fs, i + 1, AddItem(acc, dir, fs, lines[i]))
  }

  /** On the later lines of a ProjectSection: an item unless it ends the section. */
  function ScanSection(lines: seq<string>, dir: string, fs: FileSystem, i: nat, acc: SolutionStuff)
    : Result<SolutionStuff, SolutionError>
    requires i <= |lines|
    decreases |lines| - i
  {
    if i == |lines| then Success(acc)
    else if EndsSection(lines[i]) then ScanTop(lines, dir, fs, i + 1, acc)
    else ScanSection(lines, dir, fs, i + 1, AddItem(acc, dir, fs, lines[i]))
  }

  /** What _GetSolutionStuff returns, or the error it ends with, for the solution file `solutionFile`. */
  function SolutionContents(solutionFile: string, fs: FileSystem): Result<SolutionStuff, SolutionError>
  {
    ScanTop(fs.lines(solutionFile), DirectoryName(solutionFile), fs, 0, SolutionStuff([], []))
  }

  /** _GetSolutionStuff: the line loop over the solution file. */
  method GetSolutionStuff(solutionFile: string, fs: FileSystem) returns (r: Result<SolutionStuff, SolutionError>)
    ensures r == SolutionContents(solutionFile, fs)
  {
    var projects: seq<string> := [];
    var files: seq<string> := [];
    var sr := LineReader(fs.lines(solutionFile), 0);
    var dir := DirectoryName(solutionFile);
    ghost var lines := sr.lines;
    ghost var result := SolutionContents(solutionFile, fs);
    while true
      invariant sr.Valid() && sr.lines == lines
      invariant ScanTop(lines, dir, fs, sr.next, SolutionStuff(projects, files)) == result
      decreases |lines| - sr.next
    {
      var line;
      sr, line := sr.ReadLine();
      if line.None? {
        break;
      }
      var text := line.value;
      if OpensProject(text) {
        assert ScanTop(lines, dir, fs, sr.next - 1, SolutionStuff(projects, files))
            == TopProject(lines, dir, fs, sr.next - 1, SolutionStuff(projects, files));
        var kind := LexProjectLine(text);
        if kind.RealProject? {
          var path := Combine(dir, kind.path);
          path := fs.fullPath(path);
          if path in fs.existing {
            projects := projects + [path];
          }
        } else if kind.FolderProject? {
          var acc, ok;
          sr, acc, ok := ScanFolder(sr, dir, fs, SolutionStuff(projects, files));
          if !ok {
            return Failure(EndOfFileInFolder);
          }
          files := acc.files;
        }
      }
    }
    return Success(SolutionStuff(projects, files));
  }

  /**
   * The block of a solution folder after its declaration (cppkg/Program.cs:250-278): skip to
   * its ProjectSection, then add the items up to the end of the section.
   */
  method ScanFolder(sr: LineReader, dir: string, fs: FileSystem, acc: SolutionStuff)
    returns (sr': LineReader, acc': SolutionStuff, ok: bool)
    requires sr.Valid()
    ensures sr'.Valid() && sr'.lines == sr.lines && sr.next <= sr'.next
    ensures acc'.projects == acc.projects
    ensures ok ==> ScanSeek(sr.lines, dir, fs, sr.next, acc) == ScanTop(sr.lines, dir, fs, sr'.next, acc')
    ensures !ok ==> ScanSeek(sr.lines, dir, fs, sr.next, acc) == Failure(EndOfFileInFolder)
  {
    ghost var lines := sr.lines;
    ghost var goal := ScanSeek(lines, dir, fs, sr.next, acc);
    var found;
    sr', found := SkipToSection(sr, dir, fs, acc);
    acc' := acc;
    if found.None? {
      return sr', acc', false;
    }
    ok := true;
    if IsEndProject(found.value) {
      assert goal == ScanTop(lines, dir, fs, sr'.next, acc);
    } else {
      assert goal == ScanFirst(lines, dir, fs, sr'.next, acc);
      sr', acc' := ReadSection(sr', dir, fs, acc);
    }
  }

  /** The lines after a solution folder's `ProjectSection` line: its items, unless `EndProject` follows at once. */
  method ReadSection(sr: LineReader, dir: string, fs: FileSystem, acc: SolutionStuff)
    returns (sr': LineReader, acc': SolutionStuff)
    requires sr.Valid()
    ensures sr'.Valid() && sr'.lines == sr.lines && sr.next <= sr'.next
    ensures acc'.projects == acc.projects
    ensures ScanFirst(sr.lines, dir, fs, sr.next, acc) == ScanTop(sr.lines, dir, fs, sr'.next, acc')
  {
    var raw;
    sr', raw := sr.ReadLine();
    acc' := acc;
    ScanFirstCases(sr.lines, dir, fs, sr.next, acc);
    if raw.Some? && !IsEndProject(raw.value) {
      sr', acc' := SectionItems(sr', dir, fs, acc, raw.value);
    }
  }

  /** The line after `ProjectSection` ends the block, is `EndProject`, or is the section's first item. */
  lemma ScanFirstCases(lines: seq<string>, dir: string, fs: FileSystem, i: nat, acc: SolutionStuff)
    requires i <= |lines|
    ensures i == |lines| ==> ScanFirst(lines, dir, fs, i, acc) == ScanTop(lines, dir, fs, i, acc)
    ensures i < |lines| && IsEndProject(lines[i]) ==>
      ScanFirst(lines, dir, fs, i, acc) == ScanTop(lines, dir, fs, i + 1, acc)
    ensures i < |lines| && !IsEndProject(lines[i]) ==>
      ScanFirst(lines, dir, fs, i, acc) == ScanSection(lines, dir, fs, i + 1, AddItem(acc, dir, fs, lines[i]))
  {
  }

  /**
   * The loop that reads a solution folder's lines up to its `EndProject` or `ProjectSection`
   * line, which it returns; None at the end of the file.
   */
  method SkipToSection(sr: LineReader, dir: string, fs: FileSystem, acc: SolutionStuff)
    returns (sr': LineReader, found: Option<string>)
    requires sr.Valid()
    ensures sr'.Valid() && sr'.lines == sr.lines && sr.next <= sr'.next
    ensures found.None? ==> ScanSeek(sr.lines, dir, fs, sr.next, acc) == Failure(EndOfFileInFolder)
    ensures found.Some? ==> sr.next < sr'.next && found.value == sr.lines[sr'.next - 1]
    ensures found.Some? ==> IsEndProject(found.value) || OpensSection(found.value)
    ensures found.Some? ==> ScanSeek(sr.lines, dir, fs, sr.next, acc) == ScanSeek(sr.lines, dir, fs, sr'.next - 1, acc)
  {
    ghost var lines := sr.lines;
    var raw;
    sr', raw := sr.ReadLine();
    if raw.None? {
      return sr', None;
    }
    var line := raw.value;
    while !IsEndProject(line) && !OpensSection(line)
      invariant sr'.Valid() && sr'.lines == lines && sr.next < sr'.next
      invariant line == lines[sr'.next - 1]
      invariant ScanSeek(lines, dir, fs, sr.next, acc) == ScanSeek(lines, dir, fs, sr'.next - 1, acc)
      decreases |lines| - sr'.next
    {
      assert ScanSeek(lines, dir, fs, sr'.next - 1, acc) == ScanSeek(lines, dir, fs, sr'.next, acc);
      sr', raw := sr'.ReadLine();
      if raw.None? {
        return sr', None;
      }
      line := raw.value;
    }
    return sr', Some(line);
  }

  /** One line of a ProjectSection: its key, resolved, is added when it exists. */
  method AddSectionLine(acc: SolutionStuff, dir: string, fs: FileSystem, line: string) returns (acc': SolutionStuff)
    ensures acc' == AddItem(acc, dir, fs, line)
    ensures acc'.projects == acc.projects
  {
    acc' := acc;
    var found := LexItemLine(line);
    if found.Some? {
      var fpath := Combine(dir, found.value);
      fpath := fs.fullPath(fpath);
      if fpath in fs.existing {
        acc' := acc.(files := acc.files + [fpath]);
      }
    }
  }

  /**
   * The do-while loop over a ProjectSection's lines: `item` is the line just read, which is
   * always lexed; the loop stops at the end of the file or at a line that ends the section.
   */
  method SectionItems(sr: LineReader, dir: string, fs: FileSystem, acc: SolutionStuff, item: string)
    returns (sr': LineReader, acc': SolutionStuff)
    requires sr.Valid() && 0 < sr.next && item == sr.lines[sr.next - 1]
    ensures sr'.Valid() && sr'.lines == sr.lines && sr.next <= sr'.next
    ensures acc'.projects == acc.projects
    ensures ScanSection(sr.lines, dir, fs, sr.next, AddItem(acc, dir, fs, item))
         == ScanTop(sr.lines, dir, fs, sr'.next, acc')
  {
    ghost var lines := sr.lines;
    ghost var goal := ScanSection(lines, dir, fs, sr.next, AddItem(acc, dir, fs, item));
    sr' := sr;
    acc' := AddSectionLine(acc, dir, fs, item);
    while true
      invariant sr'.Valid() && sr'.lines == lines && sr.next <= sr'.next
      invariant acc'.projects == acc.projects
      invariant ScanSection(lines, dir, fs, sr'.next, acc') == goal
      decreases |lines| - sr'.next
    {
      var stop;
      sr', acc', stop := SectionStep(sr', dir, fs, acc', goal);
      if stop {
        return;
      }
    }
  }

  /**
   * One turn of the do-while loop: read the next line; stop at the end of the file or at a
   * line that ends the section, or else add the line's item.
   */
  method SectionStep(sr: LineReader, dir: string, fs: FileSystem, acc: SolutionStuff,
                     ghost goal: Result<SolutionStuff, SolutionError>)
    returns (sr': LineReader, acc': SolutionStuff, stop: bool)
    requires sr.Valid() && ScanSection(sr.lines, dir, fs, sr.next, acc) == goal
    ensures sr'.Valid() && sr'.lines == sr.lines && sr.next <= sr'.next
    ensures acc'.projects == acc.projects
    ensures stop ==> ScanTop(sr.lines, dir, fs, sr'.next, acc') == goal
    ensures !stop ==> sr'.next == sr.next + 1 && ScanSection(sr.lines, dir, fs, sr'.next, acc') == goal
  {
    var raw;
    sr', raw := sr.ReadLine();
    acc' := acc;
    if raw.None? || EndsSection(raw.value) {
      SectionStops(sr.lines, dir, fs, sr.next, sr'.next, acc, goal);
      return sr', acc', true;
    }
    SectionGoesOn(sr.lines, dir, fs, sr.next, acc, goal);
    acc' := AddSectionLine(acc, dir, fs, raw.value);
    stop := false;
  }

  /** At the end of the file, or at a line that ends the section, the top-level scan takes over. */
  lemma SectionStops(lines: seq<string>, dir: string, fs: FileSystem, i: nat, n: nat, acc: SolutionStuff,
                     goal: Result<SolutionStuff, SolutionError>)
    requires i <= |lines| && ScanSection(lines, dir, fs, i, acc) == goal
    requires (i == |lines| && n == i) || (i < |lines| && EndsSection(lines[i]) && n == i + 1)
    ensures n <= |lines| && ScanTop(lines, dir, fs, n, acc) == goal
  {
  }

  /** Any other line of the section is one more item. */
  lemma SectionGoesOn(lines: seq<string>, dir: string, fs: FileSystem, i: nat, acc: SolutionStuff,
                      goal: Result<SolutionStuff, SolutionError>)
    requires i < |lines| && !EndsSection(lines[i]) && ScanSection(lines, dir, fs, i, acc) == goal
    ensures ScanSection(lines, dir, fs, i + 1, AddItem(acc, dir, fs, lines[i])) == goal
  {
  }
}
