/**
 * What the lexing of the two line shapes of a solution file promises: a well-formed
 * project declaration yields its path, unescaped, and a solution folder's GUID in any
 * case makes it a folder; a `key = value` line yields its key; and a project line is
 * only taken when every delimiter the source expects is there.
 */
module LexerProperties {
  import opened Wrappers
  import opened Strings
  import opened Lexer

  /** SkipLettersFrom stops at the end of a run of letters. */
  lemma {:induction false} SkipLettersTo(text: string, i: nat, j: nat)
    requires i <= j <= |text|
    requires forall k :: i <= k < j ==> IsLetter(text[k])
    requires j < |text| ==> !IsLetter(text[j])
    ensures SkipLettersFrom(text, i) == j
    decreases j - i
  {
    if i < j {
      SkipLettersTo(text, i + 1, j);
    }
  }

  /** FindFrom stops at the first `delim`. */
  lemma {:induction false} FindFromTo(text: string, i: nat, j: nat, delim: char)
    requires i <= j < |text| && text[j] == delim
    requires forall k :: i <= k < j ==> text[k] != delim
    ensures FindFrom(text, i, delim) == j
    decreases j - i
  {
    if i < j {
      FindFromTo(text, i + 1, j, delim);
    }
  }

  /** A DOS-style quoted string: quotes around the text with every quote doubled. */
  function Quoted(s: string): (q: string)
    ensures |q| == |DoubleQuotes(s)| + 2
  {
    "\"" + DoubleQuotes(s) + "\""
  }

  /** The escaped text of a quoted string ends at the first quote that is not doubled. */
  lemma {:induction false} DosStringEndDoubled(text: string, i: nat, s: string)
    requires i + |DoubleQuotes(s)| < |text|
    requires text[i..i + |DoubleQuotes(s)|] == DoubleQuotes(s)
    requires text[i + |DoubleQuotes(s)|] == '"'
    requires i + |DoubleQuotes(s)| + 1 < |text| ==> text[i + |DoubleQuotes(s)| + 1] != '"'
    ensures DosStringEnd(text, i) == Some(i + |DoubleQuotes(s)| + 1)
    decreases s
  {
    if s == [] {
      EndAtQuote(text, i);
    } else {
      var head := if s[0] == '"' then "\"\"" else [s[0]];
      var d' := DoubleQuotes(s[1..]);
      assert DoubleQuotes(s) == head + d';
      SplitSlice(text, i, head, d');
      DosStringEndDoubled(text, i + |head|, s[1..]);
      EndAfterHead(text, i, head, d');
    }
  }

  /** A quote that is not doubled ends the escaped text. */
  lemma EndAtQuote(text: string, i: nat)
    requires i < |text| && text[i] == '"' && (i + 1 < |text| ==> text[i + 1] != '"')
    ensures DosStringEnd(text, i) == Some(i + 1)
  {
  }

  /** A doubled quote, or any other character, is part of the escaped text. */
  lemma EndAfterHead(text: string, i: nat, head: string, rest: string)
    requires head == "\"\"" || (|head| == 1 && head[0] != '"')
    requires i + |head| <= |text| && text[i..i + |head|] == head
    requires DosStringEnd(text, i + |head|) == Some(i + |head| + |rest| + 1)
    ensures DosStringEnd(text, i) == Some(i + |head + rest| + 1)
  {
    assert text[i] == text[i..i + |head|][0];
    if |head| == 2 {
      assert text[i + 1] == text[i..i + |head|][1];
    }
  }

  /** A slice of a text that is a concatenation, split in two. */
  lemma SplitSlice(text: string, i: nat, a: string, b: string)
    requires i + |a + b| <= |text| && text[i..i + |a + b|] == a + b
    ensures text[i..i + |a|] == a && text[i + |a|..i + |a| + |b|] == b
  {
    SliceOfSlice(text, i, i + |a + b|, 0, |a|);
    SliceOfSlice(text, i, i + |a + b|, |a|, |a + b|);
  }

  /** The pieces of a quoted string found in a text. */
  lemma QuotedPieces(text: string, p: nat, s: string)
    requires p + |Quoted(s)| <= |text| && text[p..p + |Quoted(s)|] == Quoted(s)
    ensures text[p] == '"' && text[p + |Quoted(s)| - 1] == '"'
    ensures text[p + 1..p + |Quoted(s)| - 1] == DoubleQuotes(s)
  {
    var q := Quoted(s);
    var d := DoubleQuotes(s);
    assert q == ['"'] + d + ['"'];
    assert text[p] == text[p..p + |q|][0] == q[0];
    assert text[p + |q| - 1] == text[p..p + |q|][|q| - 1] == q[|q| - 1];
    assert q[1..|q| - 1] == d;
    SliceOfSlice(text, p, p + |q|, 1, |q| - 1);
  }

  /** DosStringAt reads exactly a quoted string that is not followed by a quote. */
  lemma DosStringAtQuoted(text: string, p: nat, s: string)
    requires p + |Quoted(s)| <= |text| && text[p..p + |Quoted(s)|] == Quoted(s)
    requires p + |Quoted(s)| < |text| ==> text[p + |Quoted(s)|] != '"'
    ensures DosStringAt(text, p) == Some(p + |Quoted(s)|)
  {
    QuotedPieces(text, p, s);
    DosStringEndDoubled(text, p + 1, s);
  }

  /** A slice of a slice is a slice of the whole. */
  lemma SliceOfSlice(s: string, i: nat, j: nat, a: nat, b: nat)
    requires i <= j <= |s| && a <= b <= j - i
    ensures s[i..j][a..b] == s[i + a..i + b]
  {
    assert forall k :: 0 <= k < b - a ==> s[i..j][a..b][k] == s[i + a + k] == s[i + a..i + b][k];
  }

  /** A suffix of a text that is a concatenation, split in two. */
  lemma SplitSuffix(text: string, p: nat, a: string, b: string)
    requires p <= |text| && text[p..] == a + b
    ensures p + |a| <= |text| && text[p..p + |a|] == a && text[p + |a|..] == b
  {
    assert text[p..p + |a|] == text[p..][..|a|];
    assert text[p + |a|..] == text[p..][|a|..];
  }

  /** The declaration line of a project in a solution file, with whatever follows its path. */
  function ProjectLine(projectType: string, name: string, path: string, rest: string): string
  {
    "Project(" + (Quoted(projectType) + AfterType(name, path, rest))
  }

  /** What the last stage captures from a quoted path that ends at `e`. */
  lemma PathStepAt(line: string, p: nat, e: nat)
    requires p <= |line| && DosStringAt(line, p) == Some(e)
    ensures LexFrom(line, p, AtPath) == RealProject(CollapseQuotes(line[p + 1..e - 1]))
  {
  }

  /** The path of a declaration, at the end of its lexing. */
  lemma PathStage(line: string, p: nat, path: string)
    requires p + |Quoted(path)| <= |line| && line[p..p + |Quoted(path)|] == Quoted(path)
    requires p + |Quoted(path)| < |line| ==> line[p + |Quoted(path)|] != '"'
    ensures LexFrom(line, p, AtPath) == RealProject(path)
  {
    var e := p + |Quoted(path)|;
    DosStringAtQuoted(line, p, path);
    PathStepAt(line, p, e);
    QuotedPieces(line, p, path);
    CollapseDouble(path);
  }

  /** `, ` then the path. */
  lemma CommaStage(line: string, p: nat, path: string, rest: string)
    requires p <= |line| && line[p..] == ", " + (Quoted(path) + rest)
    requires rest != [] ==> rest[0] != '"'
    ensures LexFrom(line, p, AtComma) == RealProject(path)
  {
    SplitSuffix(line, p, ", ", Quoted(path) + rest);
    assert line[p] == line[p..p + 2][0] && line[p + 1] == line[p..p + 2][1];
    SplitSuffix(line, p + 2, Quoted(path), rest);
    QuotedPieces(line, p + 2, path);
    var e := p + 2 + |Quoted(path)|;
    if e < |line| {
      assert line[e] == line[e..][0] == rest[0];
    }
    SkipWhiteSpaceTo(line, p + 1, p + 2);
    PathStage(line, p + 2, path);
  }

  /** The name stage moves past the quoted string that follows the white space. */
  lemma NameStepAt(line: string, p: nat, q: nat, e: nat)
    requires p <= q <= |line| && SkipWhiteSpaceFrom(line, p) == q && DosStringAt(line, q) == Some(e)
    ensures LexFrom(line, p, AtName) == LexFrom(line, SkipWhiteSpaceFrom(line, e), AtComma)
  {
  }

  /** The pieces of ` "name", ...` found in a text. */
  lemma NamePieces(line: string, p: nat, name: string, tail: string)
    requires p <= |line| && line[p..] == " " + (Quoted(name) + (", " + tail))
    ensures var e := p + 1 + |Quoted(name)|;
      e < |line| && line[p] == ' ' && line[p + 1..e] == Quoted(name) &&
      line[e] == ',' && line[e..] == ", " + tail
  {
    var qn := Quoted(name);
    var e := p + 1 + |qn|;
    SplitSuffix(line, p, " ", qn + (", " + tail));
    SplitSuffix(line, p + 1, qn, ", " + tail);
    assert line[p] == line[p..p + 1][0];
    assert line[e] == line[e..][0];
  }

  /** ` "name"`, then the comma and the path. */
  lemma NameStage(line: string, p: nat, name: string, path: string, rest: string)
    requires p <= |line| && line[p..] == " " + (Quoted(name) + (", " + (Quoted(path) + rest)))
    requires rest != [] ==> rest[0] != '"'
    ensures LexFrom(line, p, AtName) == RealProject(path)
  {
    var e := p + 1 + |Quoted(name)|;
    NamePieces(line, p, name, Quoted(path) + rest);
    SkipWhiteSpaceTo(line, p, p + 1);
    DosStringAtQuoted(line, p + 1, name);
    SkipWhiteSpaceTo(line, e, e);
    NameStepAt(line, p, p + 1, e);
    CommaStage(line, e, path, rest);
  }

  /** The tail of a declaration after the quoted type. */
  function AfterType(name: string, path: string, rest: string): string
  {
    ") =" + (" " + (Quoted(name) + (", " + (Quoted(path) + rest))))
  }

  /** `) =`, the name, the comma and the path: after any type but the folder's. */
  lemma CloseStage(line: string, p: nat, name: string, path: string, rest: string)
    requires p <= |line| && line[p..] == AfterType(name, path, rest)
    requires rest != [] ==> rest[0] != '"'
    ensures LexFrom(line, p, AtClose) == RealProject(path)
  {
    SplitSuffix(line, p, ") =", " " + (Quoted(name) + (", " + (Quoted(path) + rest))));
    assert line[p] == line[p..p + 3][0] && line[p + 1] == line[p..p + 3][1] && line[p + 2] == line[p..p + 3][2];
    assert line[p + 3] == line[p + 3..][0];
    SkipWhiteSpaceTo(line, p, p);
    SkipWhiteSpaceTo(line, p + 1, p + 2);
    NameStage(line, p + 3, name, path, rest);
  }

  /** `)` after the folder type, with the rest of the line after it. */
  lemma FolderCloseStage(line: string, p: nat, name: string, path: string, rest: string)
    requires p <= |line| && line[p..] == AfterType(name, path, rest)
    ensures LexFrom(line, p, AtFolderClose) == FolderProject
  {
    SplitSuffix(line, p, ") =", " " + (Quoted(name) + (", " + (Quoted(path) + rest))));
    assert line[p] == line[p..p + 3][0];
    SkipWhiteSpaceTo(line, p, p);
  }

  /** A line that starts with `Project(` opens a declaration, and its lexing reaches the type. */
  lemma ProjectKeyword(line: string)
    requires 8 < |line| && line[0..8] == "Project("
    ensures LowerStartsWith(line, "project")
    ensures SkipLettersFrom(line, 0) == 7 && SkipWhiteSpaceFrom(line, 7) == 7 && line[7] == '('
  {
    assert forall k :: 0 <= k < 8 ==> line[k] == line[0..8][k];
    LowerMatchAtAll(line, 0, "project", 0);
    SkipLettersTo(line, 0, 7);
    SkipWhiteSpaceTo(line, 7, 7);
  }

  /**
   * A well-formed declaration is a project line; it is a solution folder exactly when its
   * quoted type, upper-cased, is the folder GUID, and otherwise it yields the path it
   * declares, unescaped (cppkg/Program.cs:202-253).
   */
  lemma ProjectLineRoundTrip(projectType: string, name: string, path: string, rest: string)
    requires rest != [] ==> rest[0] != '"'
    ensures LowerStartsWith(ProjectLine(projectType, name, path, rest), "project")
    ensures ProjectLineKind(ProjectLine(projectType, name, path, rest))
         == if Upper(Quoted(projectType)) == FolderTypeGuid then FolderProject else RealProject(path)
  {
    var line := ProjectLine(projectType, name, path, rest);
    var qt := Quoted(projectType);
    var e := 8 + |qt|;
    SplitSuffix(line, 0, "Project(", qt + AfterType(name, path, rest));
    SplitSuffix(line, 8, qt, AfterType(name, path, rest));
    assert line[e] == line[e..][0] == ')';
    ProjectKeyword(line);
    assert ProjectLineKind(line) == LexFrom(line, 8, AtType);
    DosStringAtQuoted(line, 8, projectType);
    assert LexFrom(line, 8, AtType) == TypeEndStep(line, 8, e);
    UpperEqualsUpper(qt, FolderTypeGuid);
    if Upper(qt) == FolderTypeGuid {
      FolderCloseStage(line, e, name, path, rest);
    } else {
      CloseStage(line, e, name, path, rest);
    }
  }

  /** The GUID compared against is all upper case, so the source's compare is a case-insensitive one. */
  lemma FolderTypeIgnoresCase(s: string)
    ensures UpperEquals(s, FolderTypeGuid) <==> EqualsIgnoreCase(s, FolderTypeGuid)
  {
    UpperEqualsIgnoreCase(s, FolderTypeGuid);
  }

  lemma {:induction false} UpperEqualsIgnoreCase(s: string, u: string)
    requires forall k :: 0 <= k < |u| ==> !IsLower(u[k])
    ensures UpperEquals(s, u) <==> EqualsIgnoreCase(s, u)
  {
    if s != [] && u != [] {
      assert !IsLower(u[0]);
      UpperEqualsIgnoreCase(s[1..], u[1..]);
    }
  }

  /** A ProjectSection line: white space, the key, white space, `=`, then the value. */
  function ItemLine(indent: string, key: string, pad: string, value: string): string
  {
    indent + key + pad + "=" + value
  }

  /**
   * The key of a section line is what the solution folder lists: the text before the
   * first `=`, without the white space around it (cppkg/Program.cs:260-265).
   */
  lemma ItemLineRoundTrip(indent: string, key: string, pad: string, value: string)
    requires forall k :: 0 <= k < |indent| ==> IsWhiteSpace(indent[k])
    requires forall k :: 0 <= k < |pad| ==> IsWhiteSpace(pad[k])
    requires key != [] && !IsWhiteSpace(key[0]) && !IsWhiteSpace(key[|key| - 1]) && '=' !in key
    ensures ItemLinePath(ItemLine(indent, key, pad, value)) == Some(key)
  {
    var line := ItemLine(indent, key, pad, value);
    var a := |indent|;
    var b := a + |key|;
    var c := b + |pad|;
    assert line[..a] == indent && line[a..b] == key && line[b..c] == pad && line[c] == '=';
    assert line[a] == key[0];
    SkipWhiteSpaceTo(line, 0, a);
    forall k | a <= k < c ensures line[k] != '=' {
      if k < b {
        assert line[k] == key[k - a];
      } else {
        assert line[k] == pad[k - b];
      }
    }
    FindFromTo(line, a, c, '=');
    assert line[a..c] == key + pad;
    TrimEndPadded(key, pad);
  }

  /*
   * Where the lexing of a declaration that yields a path found its delimiters, stage by stage.
   */

  lemma CommaAt(line: string, p: nat) returns (i3: nat)
    requires p <= |line| && LexFrom(line, p, AtComma).RealProject?
    ensures p <= i3 < |line| && line[i3] == ','
  {
    assert LexFrom(line, p, AtComma) == CommaStep(line, p);
    i3 := p;
  }

  lemma NameAt(line: string, p: nat) returns (i3: nat)
    requires p <= |line| && LexFrom(line, p, AtName).RealProject?
    ensures p <= i3 < |line| && line[i3] == ','
  {
    var o := SkipWhiteSpaceFrom(line, p);
    assert LexFrom(line, p, AtName) == NameStep(line, p);
    var e := DosStringAt(line, o).value;
    i3 := CommaAt(line, SkipWhiteSpaceFrom(line, e));
  }

  lemma EqualsAt(line: string, p: nat) returns (i2: nat, i3: nat)
    requires p <= |line| && LexFrom(line, p, AtEquals).RealProject?
    ensures p <= i2 < i3 < |line| && line[i2] == '=' && line[i3] == ','
  {
    i2 := SkipWhiteSpaceFrom(line, p);
    assert LexFrom(line, p, AtEquals) == EqualsStep(line, p);
    i3 := NameAt(line, i2 + 1);
  }

  lemma CloseAt(line: string, p: nat) returns (i1: nat, i2: nat, i3: nat)
    requires p <= |line| && LexFrom(line, p, AtClose).RealProject?
    ensures p <= i1 < i2 < i3 < |line| && line[i1] == ')' && line[i2] == '=' && line[i3] == ','
  {
    i1 := SkipWhiteSpaceFrom(line, p);
    assert LexFrom(line, p, AtClose) == CloseStep(line, p);
    i2, i3 := EqualsAt(line, i1 + 1);
  }

  lemma TypeAt(line: string, p: nat) returns (i1: nat, i2: nat, i3: nat)
    requires p <= |line| && LexFrom(line, p, AtType).RealProject?
    ensures p <= i1 < i2 < i3 < |line| && line[i1] == ')' && line[i2] == '=' && line[i3] == ','
  {
    assert LexFrom(line, p, AtType) == TypeStep(line, p);
    var e := DosStringAt(line, p).value;
    assert LexFrom(line, e, AtTypeEnd(p)) == TypeEndStep(line, p, e);
    assert !(p <= e && UpperEquals(line[p..e], FolderTypeGuid));
    i1, i2, i3 := CloseAt(line, e);
  }

  /**
   * A project line yields a path only when `(`, `)`, `=` and `,` all follow one another in it:
   * a missing delimiter drops the line (cppkg/Program.cs:207-235).
   */
  lemma ProjectLineDelimiters(line: string)
    requires ProjectLineKind(line).RealProject?
    ensures exists i0, i1, i2, i3 ::
              0 <= i0 < i1 < i2 < i3 < |line| && line[i0] == '(' && line[i1] == ')' && line[i2] == '=' && line[i3] == ','
  {
    var p := SkipLettersFrom(line, 0);
    var i0 := SkipWhiteSpaceFrom(line, p);
    assert ProjectLineKind(line) == OpenParenStep(line, p);
    var i1, i2, i3 := TypeAt(line, i0 + 1);
  }
}
