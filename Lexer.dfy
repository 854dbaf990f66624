/**
 * The line lexer the solution parser relies on (LexContext of the LC library, which is
 * not part of this model), reduced to the behaviour its call sites in
 * cppkg/Program.cs:203-268 depend on, and the two line shapes the parser lexes.
 */
module Lexer {
  import opened Wrappers
  import opened Strings

  /** The cursor position after the ASCII letters starting at `i`. */
  function SkipLettersFrom(text: string, i: nat): (k: nat)
    requires i <= |text|
    ensures i <= k <= |text|
    ensures k < |text| ==> !IsLetter(text[k])
    decreases |text| - i
  {
    if i < |text| && IsLetter(text[i]) then SkipLettersFrom(text, i + 1) else i
  }

  /** The position of the first `delim` from `i` on, or the end of the text. */
  function FindFrom(text: string, i: nat, delim: char): (k: nat)
    requires i <= |text|
    ensures i <= k <= |text|
    ensures k < |text| ==> text[k] == delim
    decreases |text| - i
  {
    if i < |text| && text[i] != delim then FindFrom(text, i + 1, delim) else i
  }

  /** FindFrom stops at the first `delim`. */
  lemma {:induction false} FindFromFirst(text: string, i: nat, delim: char, j: nat)
    requires i <= |text| && i <= j < FindFrom(text, i, delim)
    ensures text[j] != delim
    decreases |text| - i
  {
    if i < j {
      FindFromFirst(text, i + 1, delim, j);
    }
  }

  /** What SkipLettersFrom passes over are letters. */
  lemma {:induction false} SkippedLetters(text: string, i: nat, j: nat)
    requires i <= |text| && i <= j < SkipLettersFrom(text, i)
    ensures IsLetter(text[j])
    decreases |text| - i
  {
    if i < j {
      SkippedLetters(text, i + 1, j);
    }
  }

  /**
   * The end (just past the closing quote) of a quoted string whose opening quote lies
   * before `i`: the first quote from `i` on that is not doubled; None without one.
   */
  function DosStringEnd(text: string, i: nat): (e: Option<nat>)
    requires i <= |text|
    ensures e.Some? ==> i < e.value <= |text| && text[e.value - 1] == '"'
    ensures e.Some? ==> e.value == |text| || text[e.value] != '"'
    decreases |text| - i
  {
    if i == |text| then None
    else if text[i] == '"' then
      if i + 1 < |text| && text[i + 1] == '"' then DosStringEnd(text, i + 2) else Some(i + 1)
    else DosStringEnd(text, i + 1)
  }

  /** The end of the quoted string that starts at `p`, if one starts and ends there. */
  function DosStringAt(text: string, p: nat): (e: Option<nat>)
    requires p <= |text|
    ensures e.Some? ==> p + 2 <= e.value <= |text| && text[p] == '"' && text[e.value - 1] == '"'
  {
    if p < |text| && text[p] == '"' then DosStringEnd(text, p + 1) else None
  }
  /**
   * The lexer state of one line is the text, a cursor into it and a capture buffer. Here the
   * text is a parameter, each step takes the cursor and returns the new one, and what a step
   * captures is the slice of the text between the two cursors.
   */

  /** The character under the cursor, or -1 at the end of the text. */
  function Current(text: string, pos: nat): int
  {
    if pos < |text| then text[pos] as int else -1
  }

  /** Skips ASCII letters. */
  method SkipLetters(text: string, pos: nat) returns (next: nat)
    requires pos <= |text|
    ensures next == SkipLettersFrom(text, pos)
  {
    next := pos;
    while next < |text| && IsLetter(text[next])
      invariant pos <= next <= |text|
      invariant SkipLettersFrom(text, next) == SkipLettersFrom(text, pos)
      decreases |text| - next
    {
      next := next + 1;
    }
  }

  /** Skips white space. */
  method SkipWhiteSpace(text: string, pos: nat) returns (next: nat)
    requires pos <= |text|
    ensures next == SkipWhiteSpaceFrom(text, pos)
  {
    next := pos;
    while next < |text| && IsWhiteSpace(text[next])
      invariant pos <= next <= |text|
      invariant SkipWhiteSpaceFrom(text, next) == SkipWhiteSpaceFrom(text, pos)
      decreases |text| - next
    {
      next := next + 1;
    }
  }

  /**
   * Reads a quoted string with `""` as the escape of a quote: on success the cursor ends
   * after the closing quote and the capture is the string, quotes included; otherwise the
   * cursor stays.
   */
  method ReadDosString(text: string, pos: nat) returns (next: nat, ok: bool)
    requires pos <= |text|
    ensures ok <==> DosStringAt(text, pos).Some?
    ensures ok ==> next == DosStringAt(text, pos).value
    ensures !ok ==> next == pos
  {
    if pos == |text| || text[pos] != '"' {
      return pos, false;
    }
    var i := pos + 1;
    while i < |text|
      invariant pos < i <= |text|
      invariant DosStringEnd(text, i) == DosStringEnd(text, pos + 1)
      decreases |text| - i
    {
      if text[i] == '"' {
        if i + 1 < |text| && text[i + 1] == '"' {
          i := i + 2;
        } else {
          return i + 1, true;
        }
      } else {
        i := i + 1;
      }
    }
    return pos, false;
  }

  /**
   * The source's `c == lc.Current` test followed by `-1 != lc.Advance()`: the cursor is on
   * `c` and something follows it. On success the cursor is past `c`.
   */
  method ExpectNext(text: string, pos: nat, c: char) returns (next: nat, ok: bool)
    requires pos <= |text|
    ensures next <= |text|
    ensures ok <==> OnAndAdvance(text, pos, c)
    ensures ok ==> next == pos + 1
  {
    if c as int != Current(text, pos) {
      return pos, false;
    }
    next := pos + 1;
    if -1 == Current(text, next) {
      return next, false;
    }
    return next, true;
  }

  /**
   * TryReadUntil(delim, false): captures up to, not including, the first `delim` from the
   * cursor and stops on it; without one it captures the rest of the text. The result says
   * whether the delimiter was found.
   */
  method ReadUntil(text: string, pos: nat, delim: char) returns (next: nat, found: bool)
    requires pos <= |text|
    ensures next == FindFrom(text, pos, delim)
    ensures found <==> next < |text|
  {
    next := pos;
    while next < |text| && text[next] != delim
      invariant pos <= next <= |text|
      invariant FindFrom(text, next, delim) == FindFrom(text, pos, delim)
      decreases |text| - next
    {
      next := next + 1;
    }
    found := next < |text|;
  }


  // ---------------------------------------------------------------------------
  // The two line shapes of cppkg/Program.cs:203-268

  /** The type GUID of a solution folder, quoted, as compared with the upper-cased capture. */
  const FolderTypeGuid: string := "\"{2150E333-8FDC-42A3-9474-1A3956D46DE8}\""

  datatype LineKind =
    | NotProject                   // some step of the lexing failed: the line is dropped
    | RealProject(path: string)    // the unquoted, unescaped path of a project
    | FolderProject                // a solution folder: its ProjectSection lists solution items

  /** The cursor is on `c` and Advance() past it does not reach the end: `c == Current && -1 != Advance()`. */
  predicate OnAndAdvance(text: string, p: nat, c: char)
  {
    p + 1 < |text| && text[p] == c
  }

  /**
   * The steps of the lexing of a project declaration, each named after what it expects:
   * `Project` `(` type `)` `=` name `,` path, where a solution folder's type ends the line's lexing.
   */
  datatype Stage =
    | AtOpenParen | AtType | AtTypeEnd(typeStart: nat) | AtFolderClose | AtClose | AtEquals | AtName | AtComma | AtPath

  /** How many steps can follow `stage`. */
  function StagesLeft(stage: Stage): nat
  {
    match stage
    case AtOpenParen => 7
    case AtType => 6
    case AtTypeEnd(_) => 5
    case AtFolderClose => 0
    case AtClose => 4
    case AtEquals => 3
    case AtName => 2
    case AtComma => 1
    case AtPath => 0
  }

  /** What the lexing of `line` from position `p` at `stage` finds. */
  function LexFrom(line: string, p: nat, stage: Stage): LineKind
    requires p <= |line|
    decreases StagesLeft(stage), 1
  {
    match stage
    case AtOpenParen => OpenParenStep(line, p)
    case AtType => TypeStep(line, p)
    case AtTypeEnd(start) => TypeEndStep(line, start, p)
    case AtFolderClose => FolderCloseStep(line, p)
    case AtClose => CloseStep(line, p)
    case AtEquals => EqualsStep(line, p)
    case AtName => NameStep(line, p)
    case AtComma => CommaStep(line, p)
    case AtPath => PathStep(line, p)
  }

  /** After the leading letters: `(`. */
  function OpenParenStep(line: string, p: nat): LineKind
    requires p <= |line|
    decreases StagesLeft(AtOpenParen), 0
  {
    var q := SkipWhiteSpaceFrom(line, p);
    if OnAndAdvance(line, q, '(') then LexFrom(line, q + 1, AtType) else NotProject
  }

  /** After `(`: the quoted type. */
  function TypeStep(line: string, p: nat): LineKind
    requires p <= |line|
    decreases StagesLeft(AtType), 0
  {
    match DosStringAt(line, p)
    case None => NotProject
    case Some(e) => LexFrom(line, e, AtTypeEnd(p))
  }

  /** After the type that started at `start`: the folder type, compared case-insensitively, decides. */
  function TypeEndStep(line: string, start: nat, p: nat): LineKind
    requires p <= |line|
    decreases StagesLeft(AtTypeEnd(start)), 0
  {
    if start <= p && UpperEquals(line[start..p], FolderTypeGuid) then LexFrom(line, p, AtFolderClose)
    else LexFrom(line, p, AtClose)
  }

  /** After the folder type: `)` with something after it. */
  function FolderCloseStep(line: string, p: nat): LineKind
    requires p <= |line|
    decreases StagesLeft(AtFolderClose), 0
  {
    if OnAndAdvance(line, SkipWhiteSpaceFrom(line, p), ')') then FolderProject else NotProject
  }

  /** After any other type: `)`. */
  function CloseStep(line: string, p: nat): LineKind
    requires p <= |line|
    decreases StagesLeft(AtClose), 0
  {
    var q := SkipWhiteSpaceFrom(line, p);
    if OnAndAdvance(line, q, ')') then LexFrom(line, q + 1, AtEquals) else NotProject
  }

  /** After `)`: `=`. */
  function EqualsStep(line: string, p: nat): LineKind
    requires p <= |line|
    decreases StagesLeft(AtEquals), 0
  {
    var q := SkipWhiteSpaceFrom(line, p);
    if OnAndAdvance(line, q, '=') then LexFrom(line, q + 1, AtName) else NotProject
  }

  /** After `=`: the quoted name. */
  function NameStep(line: string, p: nat): LineKind
    requires p <= |line|
    decreases StagesLeft(AtName), 0
  {
    match DosStringAt(line, SkipWhiteSpaceFrom(line, p))
    case None => NotProject
    case Some(e) => LexFrom(line, SkipWhiteSpaceFrom(line, e), AtComma)
  }

  /** After the name: `,`. */
  function CommaStep(line: string, p: nat): LineKind
    requires p <= |line|
    decreases StagesLeft(AtComma), 0
  {
    if OnAndAdvance(line, p, ',') then LexFrom(line, SkipWhiteSpaceFrom(line, p + 1), AtPath) else NotProject
  }

  /** The quoted path, without its quotes and with `""` collapsed to `"`. */
  function PathStep(line: string, p: nat): LineKind
    requires p <= |line|
    decreases StagesLeft(AtPath), 0
  {
    match DosStringAt(line, p)
    case None => NotProject
    case Some(e) => RealProject(CollapseQuotes(line[p + 1..e - 1]))
  }

  /** What the lexing of a line that starts with "project" finds (cppkg/Program.cs:203-253). */
  function ProjectLineKind(line: string): LineKind
  {
    LexFrom(line, SkipLettersFrom(line, 0), AtOpenParen)
  }

  lemma SliceInner(s: string, i: nat, j: nat)
    requires i + 2 <= j <= |s|
    ensures s[i..j][1..j - i - 1] == s[i + 1..j - 1]
  {
    var a := s[i..j];
    var b, c := a[1..j - i - 1], s[i + 1..j - 1];
    assert |b| == |c|;
    forall k | 0 <= k < |b|
      ensures b[k] == c[k]
    {
      assert b[k] == a[k + 1] == s[i + k + 1];
    }
  }

  /** The lexing of a project line in the order of the source. */
  method LexProjectLine(line: string) returns (kind: LineKind)
    ensures kind == ProjectLineKind(line)
  {
    var p := SkipLetters(line, 0);
    kind := LexAfterKeyword(line, p);
  }

  method LexAfterKeyword(line: string, p: nat) returns (kind: LineKind)
    requires p <= |line|
    ensures kind == LexFrom(line, p, AtOpenParen)
  {
    var q := SkipWhiteSpace(line, p);
    var ok;
    q, ok := ExpectNext(line, q, '(');
    if !ok {
      return NotProject;
    }
    kind := LexAfterOpenParen(line, q);
  }

  method LexAfterOpenParen(line: string, p: nat) returns (kind: LineKind)
    requires p <= |line|
    ensures kind == LexFrom(line, p, AtType)
  {
    var e, ok := ReadDosString(line, p);
    if !ok {
      return NotProject;
    }
    var projectType := line[p..e];
    assert LexFrom(line, p, AtType) == LexFrom(line, e, AtTypeEnd(p));
    assert LexFrom(line, e, AtTypeEnd(p)) == TypeEndStep(line, p, e);
    UpperEqualsUpper(projectType, FolderTypeGuid);
    if FolderTypeGuid != Upper(projectType) {
      kind := LexAfterType(line, e);
    } else {
      kind := LexAfterFolderType(line, e);
    }
  }

  method LexAfterFolderType(line: string, p: nat) returns (kind: LineKind)
    requires p <= |line|
    ensures kind == LexFrom(line, p, AtFolderClose)
  {
    var q := SkipWhiteSpace(line, p);
    var ok;
    q, ok := ExpectNext(line, q, ')');
    return if ok then FolderProject else NotProject;
  }

  method LexAfterType(line: string, p: nat) returns (kind: LineKind)
    requires p <= |line|
    ensures kind == LexFrom(line, p, AtClose)
  {
    var q := SkipWhiteSpace(line, p);
    var ok;
    q, ok := ExpectNext(line, q, ')');
    if !ok {
      return NotProject;
    }
    kind := LexAfterCloseParen(line, q);
  }

  method LexAfterCloseParen(line: string, p: nat) returns (kind: LineKind)
    requires p <= |line|
    ensures kind == LexFrom(line, p, AtEquals)
  {
    var q := SkipWhiteSpace(line, p);
    var ok;
    q, ok := ExpectNext(line, q, '=');
    if !ok {
      return NotProject;
    }
    kind := LexAfterEquals(line, q);
  }

  method LexAfterEquals(line: string, p: nat) returns (kind: LineKind)
    requires p <= |line|
    ensures kind == LexFrom(line, p, AtName)
  {
    var q := SkipWhiteSpace(line, p);
    var ok;
    q, ok := ReadDosString(line, q);
    if !ok {
      return NotProject;
    }
    q := SkipWhiteSpace(line, q);
    kind := LexAfterName(line, q);
  }

  method LexAfterName(line: string, p: nat) returns (kind: LineKind)
    requires p <= |line|
    ensures kind == LexFrom(line, p, AtComma)
  {
    var q, ok := ExpectNext(line, p, ',');
    if !ok {
      return NotProject;
    }
    q := SkipWhiteSpace(line, q);
    kind := LexProjectPath(line, q);
  }

  method LexProjectPath(line: string, p: nat) returns (kind: LineKind)
    requires p <= |line|
    ensures kind == LexFrom(line, p, AtPath)
  {
    var e, ok := ReadDosString(line, p);
    if !ok {
      return NotProject;
    }
    var path := line[p..e];
    SliceInner(line, p, e);
    path := path[1..|path| - 1];
    return RealProject(CollapseQuotes(path));
  }

  /**
   * A ProjectSection line: the white-space-trimmed-at-the-end text between the leading
   * white space and the first `=`; None when the line has no `=` (cppkg/Program.cs:262-265).
   */
  function ItemLinePath(line: string): Option<string>
  {
    var p := SkipWhiteSpaceFrom(line, 0);
    var k := FindFrom(line, p, '=');
    if k < |line| then Some(TrimEnd(line[p..k])) else None
  }

  /** The lexing of a ProjectSection line. */
  method LexItemLine(line: string) returns (item: Option<string>)
    ensures item == ItemLinePath(line)
  {
    var p := SkipWhiteSpace(line, 0);
    var k, found := ReadUntil(line, p, '=');
    if found {
      return Some(TrimEnd(line[p..k]));
    }
    return None;
  }
}
