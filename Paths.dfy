/**
 * The parts of System.IO.Path (.NET Framework, Windows) that the packager
 * uses, stated on the path text as given, and the packager's own
 * relative-path computation `_GetRelativePath` (cppkg/Program.cs:124-187).
 */
module Paths {
  import opened Wrappers
  import opened Strings

  const DirectorySeparator: char := '\\'
  const AltDirectorySeparator: char := '/'
  const VolumeSeparator: char := ':'

  predicate IsDirectorySeparator(c: char) { c == DirectorySeparator || c == AltDirectorySeparator }

  /** Path.IsPathRooted: a leading separator, or a volume separator in second place. */
  predicate IsPathRooted(p: string)
  {
    (|p| >= 1 && IsDirectorySeparator(p[0])) || (|p| >= 2 && p[1] == VolumeSeparator)
  }

  /** The end of a UNC root `\\server\share`: the index of the second separator after position 2, or the end. */
  function UncRootEnd(p: string, i: nat, n: nat): (k: nat)
    requires i <= |p|
    ensures i <= k <= |p|
    decreases |p| - i
  {
    if i == |p| then i
    else if !IsDirectorySeparator(p[i]) then UncRootEnd(p, i + 1, n)
    else if n > 1 then UncRootEnd(p, i + 1, n - 1)
    else i
  }

  /** The length of the root of `p` (`\`, `\\server\share`, `C:` or `C:\`); zero exactly when `p` is not rooted. */
  function RootLength(p: string): (n: nat)
    ensures n <= |p|
    ensures n > 0 <==> IsPathRooted(p)
  {
    if |p| >= 1 && IsDirectorySeparator(p[0]) then
      if |p| >= 2 && IsDirectorySeparator(p[1]) then UncRootEnd(p, 2, 2) else 1
    else if |p| >= 2 && p[1] == VolumeSeparator then
      if |p| >= 3 && IsDirectorySeparator(p[2]) then 3 else 2
    else 0
  }

  /** Path.GetPathRoot. */
  function GetPathRoot(p: string): (root: string)
    ensures StartsWith(p, root)
    ensures root != [] <==> IsPathRooted(p)
  {
    p[..RootLength(p)]
  }

  /** Path.Combine(a, b): `b` when it is rooted, otherwise `a` and `b` joined by one separator. */
  function Combine(a: string, b: string): (r: string)
    ensures IsPathRooted(b) ==> r == b
    ensures a != [] && b != [] && !IsPathRooted(b) ==> |r| >= |a| + |b| && r[..|a|] == a && r[|r| - |b|..] == b
  {
    if b == [] then a
    else if a == [] then b
    else if IsPathRooted(b) then b
    else if IsDirectorySeparator(a[|a| - 1]) || a[|a| - 1] == VolumeSeparator then a + b
    else a + [DirectorySeparator] + b
  }

  /** The loop of Path.GetDirectoryName: back from `i` to the last separator above the root. */
  function DirectoryEnd(p: string, i: nat, root: nat): (k: nat)
    requires root <= i <= |p|
    ensures root <= k <= i
    ensures k > root ==> k < i && IsDirectorySeparator(p[k])
    ensures forall j :: k < j < i ==> !IsDirectorySeparator(p[j])
  {
    if i == root then root
    else if IsDirectorySeparator(p[i - 1]) then i - 1
    else DirectoryEnd(p, i - 1, root)
  }

  /**
   * Path.GetDirectoryName: `p` up to its last separator, or its root when that separator is part
   * of the root. .NET returns null when `p` is no longer than its root; that case is the empty string here.
   */
  function DirectoryName(p: string): (d: string)
    ensures StartsWith(p, d)
  {
    var root := RootLength(p);
    if |p| <= root then [] else p[..DirectoryEnd(p, |p|, root)]
  }

  predicate IsNameBreak(c: char) { IsDirectorySeparator(c) || c == VolumeSeparator }

  function FileNameStart(p: string, i: nat): (k: nat)
    requires i <= |p|
    ensures k <= i
    ensures forall j :: k <= j < i ==> !IsNameBreak(p[j])
    ensures k > 0 ==> IsNameBreak(p[k - 1])
  {
    if i == 0 then 0
    else if IsNameBreak(p[i - 1]) then i
    else FileNameStart(p, i - 1)
  }

  /** Path.GetFileName: what follows the last separator or volume separator. */
  function FileName(p: string): (name: string)
    ensures |name| <= |p| && name == p[|p| - |name|..]
    ensures forall j :: 0 <= j < |name| ==> !IsNameBreak(name[j])
  {
    p[FileNameStart(p, |p|)..]
  }

  function LastIndexOfDot(s: string, i: nat): (k: int)
    requires i <= |s|
    ensures -1 <= k < i
    ensures k >= 0 ==> s[k] == '.'
    ensures forall j :: k < j < i ==> s[j] != '.'
  {
    if i == 0 then -1 else if s[i - 1] == '.' then i - 1 else LastIndexOfDot(s, i - 1)
  }

  /** Path.GetFileNameWithoutExtension: the file name cut at its last dot. */
  function FileNameWithoutExtension(p: string): (stem: string)
    ensures StartsWith(FileName(p), stem)
  {
    var name := FileName(p);
    var i := LastIndexOfDot(name, |name|);
    if i == -1 then name else name[..i]
  }

  // ---------------------------------------------------------------------------
  // _GetRelativePath

  datatype PathError =
    | PathNotRooted       // "path argument is not a rooted path."
    | BaseNotRooted       // "relBase argument is not a rooted path."
    | DifferentRoots      // "Both paths do not share the same root."

  /** The number of leading segments `a` and `b` share, compared case-insensitively. */
  function CommonCount(a: seq<string>, b: seq<string>): (n: nat)
    ensures n <= |a| && n <= |b|
    ensures forall i :: 0 <= i < n ==> EqualsIgnoreCase(a[i], b[i])
    ensures n < |a| && n < |b| ==> !EqualsIgnoreCase(a[n], b[n])
  {
    if a == [] || b == [] || !EqualsIgnoreCase(a[0], b[0]) then 0
    else 1 + CommonCount(a[1..], b[1..])
  }

  /** `k` copies of `..\`. */
  function Ups(k: nat): (r: string)
    ensures |r| == 3 * k
  {
    if k == 0 then [] else Ups(k - 1) + ".." + [DirectorySeparator]
  }

  /** Appends `parts` to `acc` one at a time with Path.Combine. */
  function Descend(acc: string, parts: seq<string>): string
    decreases parts
  {
    if parts == [] then acc else Descend(Combine(acc, parts[0]), parts[1..])
  }

  /** The segments of `p` after its root, as `p.Substring(root.Length).Split('\\')`. */
  function Segments(p: string): (parts: seq<string>)
    ensures |parts| >= 1
  {
    Split(p[RootLength(p)..], DirectorySeparator)
  }

  /** One `..\` per base segment after the common prefix, then the remaining path segments. */
  function SegmentsRelative(pathParts: seq<string>, baseParts: seq<string>): string
  {
    var n := CommonCount(pathParts, baseParts);
    Descend(Ups(|baseParts| - n), pathParts[n..])
  }

  /** What _GetRelativePath returns or throws for `path` taken relative to `relBase`. */
  function RelativePath(path: string, relBase: string, throwOnDifferentRoot: bool): Result<string, PathError>
  {
    if !IsPathRooted(path) then Failure(PathNotRooted)
    else if !IsPathRooted(relBase) then Failure(BaseNotRooted)
    else if !EqualsIgnoreCase(GetPathRoot(path), GetPathRoot(relBase)) then
      if throwOnDifferentRoot then Failure(DifferentRoots) else Success(path)
    else Success(SegmentsRelative(Segments(path), Segments(relBase)))
  }

  /** _GetRelativePath as the source writes it: a counting loop and two accumulating loops. */
  method GetRelativePath(path: string, relBase: string, throwOnDifferentRoot: bool) returns (r: Result<string, PathError>)
    ensures r == RelativePath(path, relBase, throwOnDifferentRoot)
  {
    if !IsPathRooted(path) {
      return Failure(PathNotRooted);
    }
    if !IsPathRooted(relBase) {
      return Failure(BaseNotRooted);
    }
    var pathRoot := GetPathRoot(path);
    var baseRoot := GetPathRoot(relBase);
    if !EqualsIgnoreCase(pathRoot, baseRoot) {
      if throwOnDifferentRoot {
        return Failure(DifferentRoots);
      }
      return Success(path);
    }
    var pathParts := Split(path[|pathRoot|..], DirectorySeparator);
    var baseParts := Split(relBase[|baseRoot|..], DirectorySeparator);
    var newPath := RelativeSegments(pathParts, baseParts);
    return Success(newPath);
  }

  /**
   * The segment arithmetic of _GetRelativePath (cppkg/Program.cs:163-186): count the common
   * segments, add one `..\` per remaining base segment, then combine the remaining path segments.
   */
  method RelativeSegments(pathParts: seq<string>, baseParts: seq<string>) returns (newPath: string)
    ensures newPath == SegmentsRelative(pathParts, baseParts)
  {
    var commonCount := CountCommon(pathParts, baseParts);
    newPath := "";
    for i := commonCount to |baseParts|
      invariant newPath == Ups(i - commonCount)
    {
      newPath := newPath + ".." + [DirectorySeparator];
    }
    newPath := DescendLoop(newPath, pathParts, commonCount);
  }

  /** The first loop of _GetRelativePath: the length of the case-insensitively common segment prefix. */
  method CountCommon(pathParts: seq<string>, baseParts: seq<string>) returns (commonCount: nat)
    ensures commonCount == CommonCount(pathParts, baseParts)
  {
    commonCount := 0;
    while commonCount < |pathParts| && commonCount < |baseParts|
          && EqualsIgnoreCase(pathParts[commonCount], baseParts[commonCount])
      invariant commonCount <= CommonCount(pathParts, baseParts)
    {
      commonCount := commonCount + 1;
    }
  }

  /** The last loop of _GetRelativePath: Path.Combine each remaining path segment onto `acc`. */
  method DescendLoop(acc: string, pathParts: seq<string>, from: nat) returns (newPath: string)
    requires from <= |pathParts|
    ensures newPath == Descend(acc, pathParts[from..])
  {
    newPath := acc;
    for i := from to |pathParts|
      invariant Descend(newPath, pathParts[i..]) == Descend(acc, pathParts[from..])
    {
      assert pathParts[i..][1..] == pathParts[i + 1..];
      newPath := Combine(newPath, pathParts[i]);
    }
    assert pathParts[|pathParts|..] == [];
  }
}
