/**
 * The string operations of the .NET base library that the packager relies
 * on, restricted to ASCII: invariant-culture case mapping, white-space
 * trimming, prefix tests, splitting on one character, and the one
 * `Replace` the solution parser performs.
 */
module Strings {

  predicate IsUpper(c: char) { 'A' <= c <= 'Z' }
  predicate IsLower(c: char) { 'a' <= c <= 'z' }

  /** char.IsLetter, ASCII part. */
  predicate IsLetter(c: char) { IsUpper(c) || IsLower(c) }

  /** char.IsWhiteSpace, ASCII part (space, tab, line feed, vertical tab, form feed, carriage return). */
  predicate IsWhiteSpace(c: char) { c == ' ' || '\t' <= c <= '\r' }

  function LowerChar(c: char): (r: char)
    ensures !IsUpper(r)
    ensures !IsUpper(c) ==> r == c
  {
    if IsUpper(c) then (c as int + 32) as char else c
  }

  function UpperChar(c: char): (r: char)
    ensures !IsLower(r)
    ensures !IsLower(c) ==> r == c
  {
    if IsLower(c) then (c as int - 32) as char else c
  }

  /** ToLowerInvariant. */
  function Lower(s: string): (r: string)
    ensures |r| == |s|
  {
    if s == [] then [] else [LowerChar(s[0])] + Lower(s[1..])
  }

  /** ToUpperInvariant. */
  function Upper(s: string): (r: string)
    ensures |r| == |s|
  {
    if s == [] then [] else [UpperChar(s[0])] + Upper(s[1..])
  }

  lemma LowerAt(s: string, i: nat)
    requires i < |s|
    ensures Lower(s)[i] == LowerChar(s[i])
  {
    if i > 0 { LowerAt(s[1..], i - 1); }
  }

  lemma UpperAt(s: string, i: nat)
    requires i < |s|
    ensures Upper(s)[i] == UpperChar(s[i])
  {
    if i > 0 { UpperAt(s[1..], i - 1); }
  }

  /** string.Equals with InvariantCultureIgnoreCase. */
  predicate EqualsIgnoreCase(a: string, b: string)
  {
    |a| == |b| && (a == [] || (LowerChar(a[0]) == LowerChar(b[0]) && EqualsIgnoreCase(a[1..], b[1..])))
  }

  /** Case-insensitive equality is the equality of the lower-cased strings. */
  lemma {:induction false} EqualsIgnoreCaseLower(a: string, b: string)
    ensures EqualsIgnoreCase(a, b) <==> Lower(a) == Lower(b)
  {
    if a != [] && b != [] {
      EqualsIgnoreCaseLower(a[1..], b[1..]);
      assert Lower(a) == [LowerChar(a[0])] + Lower(a[1..]);
      assert Lower(b) == [LowerChar(b[0])] + Lower(b[1..]);
      if Lower(a) == Lower(b) {
        assert Lower(a)[0] == Lower(b)[0];
        assert Lower(a)[1..] == Lower(a[1..]);
        assert Lower(b)[1..] == Lower(b[1..]);
      }
    } else if a != [] || b != [] {
      assert |Lower(a)| != |Lower(b)|;
    }
  }

  lemma {:induction false} EqualsIgnoreCaseReflexive(a: string)
    ensures EqualsIgnoreCase(a, a)
  {
    if a != [] { EqualsIgnoreCaseReflexive(a[1..]); }
  }

  /** Whether `u` is the upper-cased `s`, compared character by character. */
  predicate UpperEquals(s: string, u: string)
  {
    |s| == |u| && (s == [] || (UpperChar(s[0]) == u[0] && UpperEquals(s[1..], u[1..])))
  }

  lemma {:induction false} UpperEqualsUpper(s: string, u: string)
    ensures UpperEquals(s, u) <==> Upper(s) == u
  {
    if s != [] && |s| == |u| {
      UpperEqualsUpper(s[1..], u[1..]);
      assert Upper(s) == [UpperChar(s[0])] + Upper(s[1..]);
      if Upper(s) == u {
        assert Upper(s)[0] == u[0];
        assert Upper(s)[1..] == Upper(s[1..]);
      }
      if UpperEquals(s, u) {
        assert u == [u[0]] + u[1..];
      }
    }
  }

  /** string.StartsWith. */
  predicate StartsWith(s: string, prefix: string) { |prefix| <= |s| && s[..|prefix|] == prefix }

  /** Whether `s` lower-cased reads `w[j..]` from index `p + j` on, one character at a time. */
  predicate LowerMatchAt(s: string, p: nat, w: string, j: nat)
    decreases |w| - j
  {
    j >= |w| || (p + j < |s| && LowerChar(s[p + j]) == w[j] && LowerMatchAt(s, p, w, j + 1))
  }

  /** LowerMatchAt compares every remaining character of `w`. */
  lemma {:induction false} LowerMatchAtAll(s: string, p: nat, w: string, j: nat)
    requires j < |w|
    ensures LowerMatchAt(s, p, w, j) <==>
      p + |w| <= |s| && forall k :: j <= k < |w| ==> LowerChar(s[p + k]) == w[k]
    decreases |w| - j
  {
    if j + 1 < |w| {
      LowerMatchAtAll(s, p, w, j + 1);
    }
  }

  /** Equality with, and prefix of, a lower-cased string, character by character. */
  lemma LowerPointwise(x: string, w: string)
    ensures Lower(x) == w <==> |x| == |w| && forall k :: 0 <= k < |x| ==> LowerChar(x[k]) == w[k]
    ensures StartsWith(Lower(x), w) <==> |w| <= |x| && forall k :: 0 <= k < |w| ==> LowerChar(x[k]) == w[k]
  {
    forall k | 0 <= k < |x| {
      LowerAt(x, k);
    }
    if |w| <= |x| {
      assert |Lower(x)[..|w|]| == |w|;
    }
  }

  /** The index of the first character of `text` at or after `i` that is not white space, or the end. */
  function SkipWhiteSpaceFrom(text: string, i: nat): (k: nat)
    requires i <= |text|
    ensures i <= k <= |text|
    ensures k < |text| ==> !IsWhiteSpace(text[k])
    decreases |text| - i
  {
    if i < |text| && IsWhiteSpace(text[i]) then SkipWhiteSpaceFrom(text, i + 1) else i
  }

  /** What SkipWhiteSpaceFrom passes over is white space. */
  lemma {:induction false} SkippedWhiteSpace(text: string, i: nat, j: nat)
    requires i <= |text| && i <= j < SkipWhiteSpaceFrom(text, i)
    ensures IsWhiteSpace(text[j])
    decreases |text| - i
  {
    if i < j {
      SkippedWhiteSpace(text, i + 1, j);
    }
  }

  /** SkipWhiteSpaceFrom stops at the end of a run of white space. */
  lemma {:induction false} SkipWhiteSpaceTo(text: string, i: nat, j: nat)
    requires i <= j <= |text|
    requires forall k :: i <= k < j ==> IsWhiteSpace(text[k])
    requires j < |text| ==> !IsWhiteSpace(text[j])
    ensures SkipWhiteSpaceFrom(text, i) == j
    decreases j - i
  {
    if i < j {
      SkipWhiteSpaceTo(text, i + 1, j);
    }
  }

  /** The length of `s[..j]` once its trailing white space is dropped. */
  function TrimmedLength(s: string, j: nat): (k: nat)
    requires j <= |s|
    ensures k <= j
    ensures 0 < k ==> !IsWhiteSpace(s[k - 1])
  {
    if 0 < j && IsWhiteSpace(s[j - 1]) then TrimmedLength(s, j - 1) else j
  }

  /** What TrimmedLength drops is white space. */
  lemma {:induction false} TrimmedWhiteSpace(s: string, j: nat, i: nat)
    requires j <= |s| && TrimmedLength(s, j) <= i < j
    ensures IsWhiteSpace(s[i])
  {
    if i < j - 1 {
      TrimmedWhiteSpace(s, j - 1, i);
    }
  }

  /** TrimmedLength keeps every character up to the last one that is not white space. */
  lemma {:induction false} TrimmedKeeps(s: string, j: nat, i: nat)
    requires i < j <= |s| && !IsWhiteSpace(s[i])
    ensures i < TrimmedLength(s, j)
  {
    if i < j - 1 {
      TrimmedKeeps(s, j - 1, i);
    }
  }

  /** string.TrimEnd(): drops the trailing white space. */
  function TrimEnd(s: string): (r: string)
  {
    s[..TrimmedLength(s, |s|)]
  }

  /** What TrimEnd drops is white space. */
  lemma TrimEndDrops(s: string, i: nat)
    requires |TrimEnd(s)| <= i < |s|
    ensures IsWhiteSpace(s[i])
  {
    TrimmedWhiteSpace(s, |s|, i);
  }

  /** TrimEnd drops exactly a white-space tail after a last character that is not white space. */
  lemma TrimEndPadded(key: string, pad: string)
    requires key != [] && !IsWhiteSpace(key[|key| - 1])
    requires forall k :: 0 <= k < |pad| ==> IsWhiteSpace(pad[k])
    ensures TrimEnd(key + pad) == key
  {
    var s := key + pad;
    TrimmedKeeps(s, |s|, |key| - 1);
    assert s[..|key|] == key;
  }

  /** string.Trim(): drops the leading and the trailing white space. */
  function Trim(s: string): string
  {
    var a := SkipWhiteSpaceFrom(s, 0);
    if a == |s| then []
    else
      TrimmedKeeps(s, |s|, a);
      s[a..TrimmedLength(s, |s|)]
  }

  /** Whether `s` lower-cased starts with `w`. */
  predicate LowerStartsWith(s: string, w: string)
  {
    LowerMatchAt(s, 0, w, 0)
  }

  /** Whether `s` trimmed and lower-cased starts with `w`. */
  predicate TrimmedLowerStartsWith(s: string, w: string)
  {
    LowerMatchAt(s, SkipWhiteSpaceFrom(s, 0), w, 0)
  }

  /** Whether `s` trimmed and lower-cased is `w`. */
  predicate TrimmedLowerEquals(s: string, w: string)
  {
    var a := SkipWhiteSpaceFrom(s, 0);
    LowerMatchAt(s, a, w, 0) && a + |w| <= |s| && SkipWhiteSpaceFrom(s, a + |w|) == |s|
  }

  lemma LowerStartsWithLower(s: string, w: string)
    ensures LowerStartsWith(s, w) <==> StartsWith(Lower(s), w)
  {
    LowerPointwise(s, w);
    if w != [] {
      LowerMatchAtAll(s, 0, w, 0);
    }
  }

  /** Trim keeps the characters from the first to the last that are not white space. */
  lemma TrimShape(s: string)
    ensures SkipWhiteSpaceFrom(s, 0) == |s| ==> Trim(s) == []
    ensures SkipWhiteSpaceFrom(s, 0) < |s| ==>
      SkipWhiteSpaceFrom(s, 0) < TrimmedLength(s, |s|) && Trim(s) == s[SkipWhiteSpaceFrom(s, 0)..TrimmedLength(s, |s|)]
  {
    if SkipWhiteSpaceFrom(s, 0) < |s| {
      TrimmedKeeps(s, |s|, SkipWhiteSpaceFrom(s, 0));
    }
  }

  /** A match reaches the last character of `w`. */
  lemma {:induction false} LowerMatchAtLast(s: string, p: nat, w: string, j: nat)
    requires j < |w| && LowerMatchAt(s, p, w, j)
    ensures p + |w| <= |s| && LowerChar(s[p + |w| - 1]) == w[|w| - 1]
    decreases |w| - j
  {
    if j + 1 < |w| {
      LowerMatchAtLast(s, p, w, j + 1);
    }
  }

  /** Matching at `p` in `s` is matching at 0 in a slice of `s` that starts at `p` and holds the whole word. */
  lemma {:induction false} LowerMatchAtShift(s: string, p: nat, e: nat, w: string, j: nat)
    requires p + |w| <= e <= |s|
    ensures LowerMatchAt(s, p, w, j) <==> LowerMatchAt(s[p..e], 0, w, j)
    decreases |w| - j
  {
    if j < |w| {
      LowerMatchAtShift(s, p, e, w, j + 1);
      assert s[p..e][j] == s[p + j];
    }
  }

  lemma TrimmedLowerStartsWithLower(s: string, w: string)
    requires w != [] && !IsWhiteSpace(w[|w| - 1])
    ensures TrimmedLowerStartsWith(s, w) <==> StartsWith(Lower(Trim(s)), w)
  {
    var a := SkipWhiteSpaceFrom(s, 0);
    var t := Trim(s);
    TrimShape(s);
    LowerStartsWithLower(t, w);
    if TrimmedLowerStartsWith(s, w) {
      LowerMatchAtLast(s, a, w, 0);
      TrimmedKeeps(s, |s|, a + |w| - 1);
      LowerMatchAtShift(s, a, TrimmedLength(s, |s|), w, 0);
    }
    if StartsWith(Lower(t), w) {
      LowerMatchAtShift(s, a, TrimmedLength(s, |s|), w, 0);
    }
  }

  lemma TrimmedLowerEqualsLower(s: string, w: string)
    requires w != [] && !IsWhiteSpace(w[|w| - 1])
    ensures TrimmedLowerEquals(s, w) <==> Lower(Trim(s)) == w
  {
    if TrimmedLowerEquals(s, w) {
      TrimmedLowerEqualsIsLower(s, w);
    }
    if Lower(Trim(s)) == w {
      LowerIsTrimmedLowerEquals(s, w);
    }
  }

  lemma TrimmedLowerEqualsIsLower(s: string, w: string)
    requires w != [] && !IsWhiteSpace(w[|w| - 1]) && TrimmedLowerEquals(s, w)
    ensures Lower(Trim(s)) == w
  {
    var a := SkipWhiteSpaceFrom(s, 0);
    var e := TrimmedLength(s, |s|);
    LowerMatchAtLast(s, a, w, 0);
    TrimmedKeeps(s, |s|, a + |w| - 1);
    if a + |w| < e {
      SkippedWhiteSpace(s, a + |w|, e - 1);
    }
    TrimShape(s);
    var t := Trim(s);
    assert t == s[a..e] && |t| == |w|;
    LowerMatchAtShift(s, a, e, w, 0);
    LowerStartsWithLower(t, w);
    assert Lower(t)[..|w|] == Lower(t);
  }

  lemma LowerIsTrimmedLowerEquals(s: string, w: string)
    requires w != [] && !IsWhiteSpace(w[|w| - 1]) && Lower(Trim(s)) == w
    ensures TrimmedLowerEquals(s, w)
  {
    var a := SkipWhiteSpaceFrom(s, 0);
    var e := TrimmedLength(s, |s|);
    TrimShape(s);
    var t := Trim(s);
    assert t == s[a..e] && |t| == |w|;
    assert Lower(t)[..|w|] == Lower(t);
    LowerStartsWithLower(t, w);
    LowerMatchAtShift(s, a, e, w, 0);
    forall k | e <= k < |s| ensures IsWhiteSpace(s[k]) {
      TrimmedWhiteSpace(s, |s|, k);
    }
    SkipWhiteSpaceTo(s, e, |s|);
  }

  /** The segments of `s` between occurrences of `sep`, as string.Split(sep): never empty. */
  function Split(s: string, sep: char): (parts: seq<string>)
    ensures |parts| >= 1
    ensures forall i :: 0 <= i < |parts| ==> sep !in parts[i]
  {
    if sep !in s then [s]
    else
      var k := IndexOf(s, sep);
      [s[..k]] + Split(s[k + 1..], sep)
  }

  /** The first index of `c` in `s`. */
  function IndexOf(s: string, c: char): (k: nat)
    requires c in s
    ensures k < |s| && s[k] == c && c !in s[..k]
  {
    if s[0] == c then 0 else 1 + IndexOf(s[1..], c)
  }

  /** string.Join(sep, parts): the inverse of Split. */
  function Join(parts: seq<string>, sep: char): string
    requires |parts| >= 1
  {
    if |parts| == 1 then parts[0] else parts[0] + [sep] + Join(parts[1..], sep)
  }

  lemma {:induction false} JoinSplit(s: string, sep: char)
    ensures Join(Split(s, sep), sep) == s
    decreases |s|
  {
    if sep in s {
      var k := IndexOf(s, sep);
      var rest := s[k + 1..];
      var parts := Split(s, sep);
      assert parts == [s[..k]] + Split(rest, sep);
      assert parts[0] == s[..k] && parts[1..] == Split(rest, sep);
      assert Join(parts, sep) == s[..k] + [sep] + Join(Split(rest, sep), sep);
      JoinSplit(rest, sep);
      assert s == s[..k] + [sep] + rest;
    }
  }

  lemma {:induction false} SplitJoin(parts: seq<string>, sep: char)
    requires |parts| >= 1
    requires forall i :: 0 <= i < |parts| ==> sep !in parts[i]
    ensures Split(Join(parts, sep), sep) == parts
  {
    if |parts| > 1 {
      var rest := Join(parts[1..], sep);
      SplitJoin(parts[1..], sep);
      SplitAfter(parts[0], sep, rest);
      assert [parts[0]] + parts[1..] == parts;
    }
  }

  /** Splitting `a + [sep] + b`, where `a` holds no separator, yields `a` first. */
  lemma SplitAfter(a: string, sep: char, b: string)
    requires sep !in a
    ensures Split(a + [sep] + b, sep) == [a] + Split(b, sep)
  {
    var s := a + [sep] + b;
    IndexOfAfter(a, sep, b);
    assert s[..|a|] == a;
    assert s[|a| + 1..] == b;
  }

  lemma IndexOfAfter(a: string, sep: char, b: string)
    requires sep !in a
    ensures sep in a + [sep] + b && IndexOf(a + [sep] + b, sep) == |a|
  {
    var s := a + [sep] + b;
    assert s[|a|] == sep;
    var k := IndexOf(s, sep);
    assert sep !in s[..|a|] by { assert s[..|a|] == a; }
  }

  /** The escape of a DOS-style quoted string: every quote is doubled. */
  function DoubleQuotes(s: string): (r: string)
    ensures |r| >= |s|
  {
    if s == [] then []
    else if s[0] == '"' then "\"\"" + DoubleQuotes(s[1..])
    else [s[0]] + DoubleQuotes(s[1..])
  }

  /** s.Replace("\"\"", "\""): every doubled quote, scanning left to right, becomes one. */
  function CollapseQuotes(s: string): (r: string)
    ensures |r| <= |s|
  {
    if |s| >= 2 && s[0] == '"' && s[1] == '"' then "\"" + CollapseQuotes(s[2..])
    else if s == [] then []
    else [s[0]] + CollapseQuotes(s[1..])
  }

  /** Collapsing undoes doubling: the quoted-string escape decodes to the original text. */
  lemma {:induction false} CollapseDouble(s: string)
    ensures CollapseQuotes(DoubleQuotes(s)) == s
  {
    if s != [] {
      CollapseDouble(s[1..]);
      if s[0] == '"' {
        assert DoubleQuotes(s) == "\"\"" + DoubleQuotes(s[1..]);
        assert (DoubleQuotes(s))[2..] == DoubleQuotes(s[1..]);
      } else {
        var d := DoubleQuotes(s);
        assert d == [s[0]] + DoubleQuotes(s[1..]);
        assert d[1..] == DoubleQuotes(s[1..]);
      }
    }
  }
}
