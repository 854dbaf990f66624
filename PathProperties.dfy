/**
 * Properties of the relative-path computation of cppkg/Program.cs:124-187,
 * stated on its specification function Paths.RelativePath.
 */
module PathProperties {
  import opened Wrappers
  import opened Strings
  import opened Paths

  /** A segment that Path.Combine joins with exactly one separator: non-empty, without separators or a colon. */
  predicate PlainChar(c: char)
  {
    !IsDirectorySeparator(c) && c != VolumeSeparator
  }

  predicate Plain(seg: string)
  {
    seg != [] && forall j :: 0 <= j < |seg| ==> PlainChar(seg[j])
  }

  predicate AllPlain(segs: seq<string>)
  {
    segs == [] || (Plain(segs[0]) && AllPlain(segs[1..]))
  }

  /** Both arguments must be rooted; roots that differ ignoring case throw, or give `path` back unchanged. */
  lemma {:induction false} RelativePathErrors(path: string, relBase: string, t: bool)
    ensures RelativePath(path, relBase, t) == Failure(PathNotRooted) <==> !IsPathRooted(path)
    ensures RelativePath(path, relBase, t) == Failure(BaseNotRooted) <==> IsPathRooted(path) && !IsPathRooted(relBase)
    ensures RelativePath(path, relBase, t) == Failure(DifferentRoots)
        <==> IsPathRooted(path) && IsPathRooted(relBase) && t && !EqualsIgnoreCase(GetPathRoot(path), GetPathRoot(relBase))
    ensures IsPathRooted(path) && IsPathRooted(relBase) && !t && !EqualsIgnoreCase(GetPathRoot(path), GetPathRoot(relBase))
        ==> RelativePath(path, relBase, t) == Success(path)
  {
  }

  lemma {:induction false} SameRootCase(path: string, relBase: string, t: bool)
    requires IsPathRooted(path) && IsPathRooted(relBase)
    requires EqualsIgnoreCase(GetPathRoot(path), GetPathRoot(relBase))
    ensures RelativePath(path, relBase, t) == Success(SegmentsRelative(Segments(path), Segments(relBase)))
  {
  }

  lemma {:induction false} CommonCountSelf(a: seq<string>, b: seq<string>)
    requires |a| <= |b| && a == b[..|a|]
    ensures CommonCount(a, b) == |a|
  {
    if a != [] {
      EqualsIgnoreCaseReflexive(a[0]);
      assert a[1..] == b[1..][..|a| - 1];
      CommonCountSelf(a[1..], b[1..]);
    }
  }

  /** A path taken relative to itself is the empty string. */
  lemma {:induction false} RelativeToItself(path: string, t: bool)
    requires IsPathRooted(path)
    ensures RelativePath(path, path, t) == Success("")
  {
    EqualsIgnoreCaseReflexive(GetPathRoot(path));
    var parts := Segments(path);
    CommonCountSelf(parts, parts);
    assert parts[|parts|..] == [];
  }

  /** A plain segment is not rooted and does not end in a separator. */
  lemma {:induction false} PlainSegment(seg: string)
    requires Plain(seg)
    ensures !IsPathRooted(seg) && PlainChar(seg[|seg| - 1])
  {
    assert PlainChar(seg[0]);
    if |seg| >= 2 { assert PlainChar(seg[1]); }
  }

  lemma {:induction false} CombineAfterName(acc: string, seg: string)
    requires acc != [] && PlainChar(acc[|acc| - 1]) && Plain(seg)
    ensures Combine(acc, seg) == acc + [DirectorySeparator] + seg
  {
    PlainSegment(seg);
  }

  lemma {:induction false} CombineAfterSeparator(acc: string, seg: string)
    requires acc == [] || IsDirectorySeparator(acc[|acc| - 1])
    requires Plain(seg)
    ensures Combine(acc, seg) == acc + seg
  {
    PlainSegment(seg);
  }

  lemma {:induction false} AllPlainNoSeparator(segs: seq<string>)
    requires AllPlain(segs)
    ensures forall i :: 0 <= i < |segs| ==> DirectorySeparator !in segs[i]
  {
    if segs != [] {
      AllPlainNoSeparator(segs[1..]);
      forall i | 0 <= i < |segs|
        ensures DirectorySeparator !in segs[i]
      {
        if i > 0 {
          assert segs[i] == segs[1..][i - 1];
        }
      }
    }
  }

  lemma {:induction false} JoinPlain(segs: seq<string>)
    requires |segs| >= 1 && AllPlain(segs)
    ensures Join(segs, DirectorySeparator) != []
    ensures Join(segs, DirectorySeparator)[0] == segs[0][0]
    ensures PlainChar(Join(segs, DirectorySeparator)[|Join(segs, DirectorySeparator)| - 1])
  {
    PlainSegment(segs[0]);
    if |segs| > 1 {
      JoinPlain(segs[1..]);
      var j := Join(segs, DirectorySeparator);
      var r := Join(segs[1..], DirectorySeparator);
      assert j == segs[0] + [DirectorySeparator] + r;
      assert j[0] == segs[0][0];
      assert j[|j| - 1] == r[|r| - 1];
    }
  }

  /** After a non-separator character, combining plain segments inserts one `\` before each. */
  lemma {:induction false} DescendAfterName(acc: string, segs: seq<string>)
    requires acc != [] && PlainChar(acc[|acc| - 1])
    requires |segs| >= 1 && AllPlain(segs)
    ensures Descend(acc, segs) == acc + [DirectorySeparator] + Join(segs, DirectorySeparator)
    decreases |segs|
  {
    var s0 := segs[0];
    CombineAfterName(acc, s0);
    var next := acc + [DirectorySeparator] + s0;
    assert Descend(acc, segs) == Descend(next, segs[1..]);
    if |segs| > 1 {
      PlainSegment(s0);
      assert next[|next| - 1] == s0[|s0| - 1];
      DescendAfterName(next, segs[1..]);
      var rest := Join(segs[1..], DirectorySeparator);
      assert Join(segs, DirectorySeparator) == s0 + [DirectorySeparator] + rest;
      assert next + [DirectorySeparator] + rest == acc + [DirectorySeparator] + (s0 + [DirectorySeparator] + rest);
    } else {
      assert segs[1..] == [];
      assert Join(segs, DirectorySeparator) == s0;
    }
  }

  /** After nothing or after a separator, combining plain segments joins them with single `\`s. */
  lemma {:induction false} DescendAfterSeparator(acc: string, segs: seq<string>)
    requires acc == [] || IsDirectorySeparator(acc[|acc| - 1])
    requires |segs| >= 1 && AllPlain(segs)
    ensures Descend(acc, segs) == acc + Join(segs, DirectorySeparator)
  {
    var s0 := segs[0];
    CombineAfterSeparator(acc, s0);
    var next := acc + s0;
    assert Descend(acc, segs) == Descend(next, segs[1..]);
    if |segs| > 1 {
      PlainSegment(s0);
      assert next[|next| - 1] == s0[|s0| - 1];
      DescendAfterName(next, segs[1..]);
      var rest := Join(segs[1..], DirectorySeparator);
      assert Join(segs, DirectorySeparator) == s0 + [DirectorySeparator] + rest;
      assert next + [DirectorySeparator] + rest == acc + (s0 + [DirectorySeparator] + rest);
    } else {
      assert segs[1..] == [];
      assert Join(segs, DirectorySeparator) == s0;
    }
  }

  lemma UpsEnd(k: nat)
    ensures k > 0 ==> Ups(k)[|Ups(k)| - 1] == DirectorySeparator
  {
    if k > 0 {
      assert Ups(k) == Ups(k - 1) + ".." + [DirectorySeparator];
    }
  }

  /**
   * One `..\` per base segment past the longest common segment prefix, followed by the
   * path's remaining segments joined by `\`.
   */
  lemma {:induction false} SegmentsRelativeShape(pathParts: seq<string>, baseParts: seq<string>)
    requires AllPlain(pathParts[CommonCount(pathParts, baseParts)..])
    ensures var n := CommonCount(pathParts, baseParts);
            SegmentsRelative(pathParts, baseParts)
              == if n == |pathParts| then Ups(|baseParts| - n)
                 else Ups(|baseParts| - n) + Join(pathParts[n..], DirectorySeparator)
  {
    var n := CommonCount(pathParts, baseParts);
    if n < |pathParts| {
      UpsEnd(|baseParts| - n);
      DescendAfterSeparator(Ups(|baseParts| - n), pathParts[n..]);
    } else {
      assert pathParts[n..] == [];
    }
  }

  /** With matching roots, the result has the shape of SegmentsRelativeShape on the two paths' segments. */
  lemma {:induction false} RelativePathShape(path: string, relBase: string, t: bool)
    requires IsPathRooted(path) && IsPathRooted(relBase)
    requires EqualsIgnoreCase(GetPathRoot(path), GetPathRoot(relBase))
    requires AllPlain(Segments(path)[CommonCount(Segments(path), Segments(relBase))..])
    ensures var pathParts, baseParts := Segments(path), Segments(relBase);
            var n := CommonCount(pathParts, baseParts);
            RelativePath(path, relBase, t)
              == Success(if n == |pathParts| then Ups(|baseParts| - n)
                         else Ups(|baseParts| - n) + Join(pathParts[n..], DirectorySeparator))
  {
    SameRootCase(path, relBase, t);
    SegmentsRelativeShape(Segments(path), Segments(relBase));
  }

  lemma {:induction false} UncRootEndExtend(a: string, b: string, i: nat, n: nat)
    requires i <= |a| && UncRootEnd(a, i, n) < |a|
    ensures UncRootEnd(a + b, i, n) == UncRootEnd(a, i, n)
    decreases |a| - i
  {
    assert (a + b)[i] == a[i];
    if !IsDirectorySeparator(a[i]) {
      UncRootEndExtend(a, b, i + 1, n);
    } else if n > 1 {
      UncRootEndExtend(a, b, i + 1, n - 1);
    }
  }

  /** The root of a path is decided by its first characters: text after a non-root part leaves it alone. */
  lemma {:induction false} RootLengthExtend(a: string, b: string)
    requires IsPathRooted(a) && RootLength(a) < |a|
    ensures RootLength(a + b) == RootLength(a)
  {
    var p := a + b;
    assert |a| >= 2;
    assert p[0] == a[0] && p[1] == a[1];
    if |a| >= 3 { assert p[2] == a[2]; }
    if IsDirectorySeparator(a[0]) && IsDirectorySeparator(a[1]) {
      UncRootEndExtend(a, b, 2, 2);
    }
  }

  lemma {:induction false} IndexOfExtend(t: string, x: string, c: char)
    requires c in t
    ensures c in t + x && IndexOf(t + x, c) == IndexOf(t, c)
  {
    assert (t + x)[0] == t[0];
    if t[0] != c {
      assert (t + x)[1..] == t[1..] + x;
      IndexOfExtend(t[1..], x, c);
    }
  }

  /** Text appended after the first separator of `t` only affects the later segments. */
  lemma {:induction false} SplitFirst(t: string, x: string, sep: char)
    requires sep in t
    ensures var k := IndexOf(t, sep);
            Split(t + x, sep) == [t[..k]] + Split(t[k + 1..] + x, sep)
  {
    var k := IndexOf(t, sep);
    IndexOfExtend(t, x, sep);
    assert (t + x)[..k] == t[..k];
    assert (t + x)[k + 1..] == t[k + 1..] + x;
  }

  /** Splitting text followed by a separator and joined segments yields the text's segments, then those. */
  lemma {:induction false} SplitThenJoin(t: string, segs: seq<string>)
    requires |segs| >= 1 && forall i :: 0 <= i < |segs| ==> DirectorySeparator !in segs[i]
    ensures Split(t + [DirectorySeparator] + Join(segs, DirectorySeparator), DirectorySeparator)
         == Split(t, DirectorySeparator) + segs
    decreases |t|
  {
    var sep := DirectorySeparator;
    var x := [sep] + Join(segs, sep);
    assert t + [sep] + Join(segs, sep) == t + x;
    if sep !in t {
      SplitAfter(t, sep, Join(segs, sep));
      SplitJoin(segs, sep);
    } else {
      var k := IndexOf(t, sep);
      SplitFirst(t, x, sep);
      assert t[k + 1..] + x == t[k + 1..] + [sep] + Join(segs, sep);
      SplitThenJoin(t[k + 1..], segs);
    }
  }

  lemma {:induction false} CommonCountOfPrefix(a: seq<string>, b: seq<string>)
    requires |b| <= |a| && b == a[..|b|]
    ensures CommonCount(a, b) == |b|
  {
    if b != [] {
      EqualsIgnoreCaseReflexive(a[0]);
      assert b[1..] == a[1..][..|b| - 1];
      CommonCountOfPrefix(a[1..], b[1..]);
    }
  }

  /** A path below `relBase` has the base's root, and the base's segments followed by its own. */
  lemma {:induction false} SegmentsBelowBase(relBase: string, segs: seq<string>)
    requires IsPathRooted(relBase) && RootLength(relBase) < |relBase|
    requires |segs| >= 1 && AllPlain(segs)
    ensures var path := relBase + [DirectorySeparator] + Join(segs, DirectorySeparator);
            IsPathRooted(path) && GetPathRoot(path) == GetPathRoot(relBase)
            && Segments(path) == Segments(relBase) + segs
  {
    var rel := Join(segs, DirectorySeparator);
    var path := relBase + [DirectorySeparator] + rel;
    var r := RootLength(relBase);
    assert path == relBase + ([DirectorySeparator] + rel);
    RootLengthExtend(relBase, [DirectorySeparator] + rel);
    assert path[..r] == relBase[..r];
    assert path[r..] == relBase[r..] + [DirectorySeparator] + rel;
    AllPlainNoSeparator(segs);
    SplitThenJoin(relBase[r..], segs);
  }

  /** Combining `relBase` (which ends in a name) with joined plain segments puts one separator between them. */
  lemma {:induction false} CombineBelowBase(relBase: string, segs: seq<string>)
    requires relBase != [] && PlainChar(relBase[|relBase| - 1])
    requires |segs| >= 1 && AllPlain(segs)
    ensures Combine(relBase, Join(segs, DirectorySeparator)) == relBase + [DirectorySeparator] + Join(segs, DirectorySeparator)
  {
    var rel := Join(segs, DirectorySeparator);
    JoinPlain(segs);
    PlainSegment(segs[0]);
    assert !IsPathRooted(rel) by {
      assert PlainChar(rel[0]);
      if |rel| >= 2 {
        if |segs[0]| >= 2 {
          assert rel[1] == segs[0][1] && PlainChar(segs[0][1]);
        } else {
          assert rel[1] == DirectorySeparator;
        }
      }
    }
  }

  /**
   * Round trip: for a path below `relBase` (a base with a non-root part and no trailing
   * separator), the relative path is the segments below the base, and combining it with
   * the base gives the path back.
   */
  lemma {:induction false} RelativeBelowBase(relBase: string, segs: seq<string>, t: bool)
    requires IsPathRooted(relBase) && RootLength(relBase) < |relBase|
    requires PlainChar(relBase[|relBase| - 1])
    requires |segs| >= 1 && AllPlain(segs)
    ensures var rel := Join(segs, DirectorySeparator);
            var path := relBase + [DirectorySeparator] + rel;
            RelativePath(path, relBase, t) == Success(rel) && Combine(relBase, rel) == path
  {
    var rel := Join(segs, DirectorySeparator);
    var path := relBase + [DirectorySeparator] + rel;
    SegmentsBelowBase(relBase, segs);
    EqualsIgnoreCaseReflexive(GetPathRoot(path));
    SameRootCase(path, relBase, t);
    var baseParts := Segments(relBase);
    var pathParts := Segments(path);
    CommonCountOfPrefix(pathParts, baseParts);
    assert pathParts[|baseParts|..] == segs;
    assert Ups(0) == [];
    DescendAfterSeparator([], segs);
    assert Descend([], segs) == rel by { assert [] + rel == rel; }
    CombineBelowBase(relBase, segs);
  }

  /**
   * A base that is a bare drive root (`C:\`) has one empty segment, which no path segment
   * matches: the result climbs one level more than the base has (`C:\a` gives `..\a`).
   */
  lemma {:induction false} RelativeToDriveRoot(drive: char, segs: seq<string>, t: bool)
    requires !IsDirectorySeparator(drive)
    requires |segs| >= 1 && AllPlain(segs)
    ensures var relBase := [drive, VolumeSeparator, DirectorySeparator];
            var rel := Join(segs, DirectorySeparator);
            RelativePath(relBase + rel, relBase, t) == Success(".." + [DirectorySeparator] + rel)
  {
    var relBase := [drive, VolumeSeparator, DirectorySeparator];
    var rel := Join(segs, DirectorySeparator);
    var path := relBase + rel;
    assert path[..3] == relBase;
    assert path[0] == drive && path[1] == VolumeSeparator && path[2] == DirectorySeparator;
    assert IsPathRooted(path) && IsPathRooted(relBase);
    assert RootLength(path) == 3 && RootLength(relBase) == 3;
    assert GetPathRoot(path) == relBase && GetPathRoot(relBase) == relBase;
    EqualsIgnoreCaseReflexive(relBase);
    assert relBase[3..] == [];
    assert Segments(relBase) == [[]];
    assert path[3..] == rel;
    AllPlainNoSeparator(segs);
    SplitJoin(segs, DirectorySeparator);
    assert Segments(path) == segs;
    assert CommonCount(segs, [[]]) == 0;
    SameRootCase(path, relBase, t);
    assert Ups(1) == ".." + [DirectorySeparator];
    DescendAfterSeparator(Ups(1), segs);
  }
}
