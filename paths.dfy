/** The `System.IO.Path` operations the capture handler uses, on paths whose
    only directory separator is '\\', and the key under which the
    (case-insensitive) Windows file system knows a path. */
module Paths {
  import opened Text

  const Sep: char := '\\'

  function LastSep(p: string): int {
    LastIndexOf(p, Sep)
  }

  /** `Path.GetFileName`: what follows the last separator. */
  function FileName(p: string): string {
    p[LastSep(p) + 1..]
  }

  /** `Path.GetDirectoryName`: what precedes the last separator. */
  function DirName(p: string): string {
    if LastSep(p) < 0 then "" else p[..LastSep(p)]
  }

  /** `Path.GetExtension`: from the last dot of the file name on, or empty
      when the name has no dot or ends with it. */
  function Ext(p: string): string {
    NameExt(FileName(p))
  }

  function NameExt(n: string): string {
    var d := LastIndexOf(n, '.');
    if d < 0 || d == |n| - 1 then "" else n[d..]
  }

  /** `Path.GetFileNameWithoutExtension`: the file name up to its last dot. */
  function Stem(p: string): string {
    NameStem(FileName(p))
  }

  function NameStem(n: string): string {
    var d := LastIndexOf(n, '.');
    if d < 0 then n else n[..d]
  }

  /** `Path.Combine(d, n)` for a relative `n`. */
  function Combine(d: string, n: string): string {
    if d == "" then n
    else if d[|d| - 1] == Sep then d + n
    else d + [Sep] + n
  }

  /** The key of a path in the file system: Windows compares paths without
      regard to case. */
  function Fold(p: string): string {
    LowerStr(p)
  }

  /** Lines 393-394: rebuild the name from its directory, its stem and its
      lower-cased extension. */
  function LowerExtension(p: string): string {
    Combine(DirName(p), Stem(p) + LowerStr(Ext(p)))
  }

  /** Lines 391-395: the step is taken only when `LowerCaseExtension` is set
      and the extension is not empty. */
  function ApplyLowerCase(lowerCaseExtension: bool, p: string): string {
    if lowerCaseExtension && Ext(p) != "" then LowerExtension(p) else p
  }

  /** A path whose file name is not preceded by an empty directory segment
      (no leading separator, no doubled separator before the name): for
      these, splitting into directory and name and combining again gives
      the path back. */
  predicate SimplePath(p: string) {
    LastSep(p) != 0 && (LastSep(p) > 0 ==> p[LastSep(p) - 1] != Sep)
  }

  /** A well-formed extension: a dot, at least one more character, no
      further dot and no separator. */
  predicate IsExtension(e: string) {
    |e| >= 2 && e[0] == '.' && (forall i :: 1 <= i < |e| ==> e[i] != '.') &&
    (forall i :: 0 <= i < |e| ==> e[i] != Sep)
  }

  predicate NoSep(s: string) {
    forall i :: 0 <= i < |s| ==> s[i] != Sep
  }

  lemma {:induction false} LastIndexOfAbsent(s: string, c: char)
    requires forall i :: 0 <= i < |s| ==> s[i] != c
    ensures LastIndexOf(s, c) == -1
  {
  }

  lemma {:induction false} LastIndexOfAppend(a: string, b: string, c: char)
    requires |a| > 0 && a[|a| - 1] == c
    requires forall i :: 0 <= i < |b| ==> b[i] != c
    ensures LastIndexOf(a + b, c) == |a| - 1
    decreases |b|
  {
    if |b| == 0 {
      assert a + b == a;
    } else {
      var ab := a + b;
      assert ab[|ab| - 1] == b[|b| - 1];
      assert ab[..|ab| - 1] == a + b[..|b| - 1];
      LastIndexOfAppend(a, b[..|b| - 1], c);
    }
  }

  /** A directory and a file name put together are taken apart again by
      `DirName` and `FileName`. */
  lemma SplitCombineDir(d: string, n: string)
    requires d == "" || d[|d| - 1] != Sep
    requires NoSep(n)
    ensures var p := Combine(d, n);
      SimplePath(p) && DirName(p) == d && FileName(p) == n
  {
    var p := Combine(d, n);
    if d == "" {
      LastIndexOfAbsent(n, Sep);
    } else {
      LastIndexOfAppend(d + [Sep], n, Sep);
      assert p[..|d|] == d;
      assert p[|d| + 1..] == n;
    }
  }

  /** A stem and an extension put together are taken apart again by
      `NameStem` and `NameExt`. */
  lemma SplitName(stem: string, e: string)
    requires IsExtension(e)
    ensures NameStem(stem + e) == stem && NameExt(stem + e) == e
  {
    var n := stem + e;
    var pre := stem + [e[0]];
    assert n == pre + e[1..];
    LastIndexOfAppend(pre, e[1..], '.');
    assert n[..|stem|] == stem;
    assert n[|stem|..] == e;
  }

  /** A directory, a stem and an extension put together are taken apart
      again by `DirName`, `Stem` and `Ext`. */
  lemma SplitCombine(d: string, stem: string, e: string)
    requires d == "" || d[|d| - 1] != Sep
    requires NoSep(stem) && IsExtension(e)
    ensures var p := Combine(d, stem + e);
      SimplePath(p) && DirName(p) == d && Stem(p) == stem && Ext(p) == e
  {
    assert NoSep(stem + e) by {
      forall i | 0 <= i < |stem + e| ensures (stem + e)[i] != Sep {
        if i >= |stem| { assert (stem + e)[i] == e[i - |stem|]; }
      }
    }
    SplitCombineDir(d, stem + e);
    SplitName(stem, e);
  }

  /** A file name with an extension is its stem and its extension put
      together. */
  lemma SplitNameParts(n: string)
    requires NoSep(n) && NameExt(n) != ""
    ensures IsExtension(NameExt(n)) && n == NameStem(n) + NameExt(n)
  {
    var dot := LastIndexOf(n, '.');
    assert n == n[..dot] + n[dot..];
  }

  /** A simple path is its directory and its file name put together. */
  lemma SplitDirParts(p: string)
    requires SimplePath(p)
    ensures DirName(p) == "" || DirName(p)[|DirName(p)| - 1] != Sep
    ensures NoSep(FileName(p))
    ensures p == Combine(DirName(p), FileName(p))
  {
    var k := LastSep(p);
    if k >= 0 {
      assert p == p[..k] + [Sep] + p[k + 1..];
    }
  }

  /** The converse of `SplitCombine`: a simple path with an extension is
      its directory, its stem and its extension put together. */
  lemma SplitParts(p: string)
    requires SimplePath(p) && Ext(p) != ""
    ensures DirName(p) == "" || DirName(p)[|DirName(p)| - 1] != Sep
    ensures NoSep(Stem(p)) && IsExtension(Ext(p))
    ensures p == Combine(DirName(p), Stem(p) + Ext(p))
  {
    SplitDirParts(p);
    SplitNameParts(FileName(p));
    var n := FileName(p);
    assert forall i | 0 <= i < |NameStem(n)| :: NameStem(n)[i] == n[i];
  }

  lemma LowerExtensionIsExtension(e: string)
    requires IsExtension(e)
    ensures IsExtension(LowerStr(e))
  {
    forall i | 0 <= i < |e| ensures LowerStr(e)[i] == '.' <==> e[i] == '.' {
      LowerMatchesOnlyItself(e[i], '.');
    }
    forall i | 0 <= i < |e| ensures LowerStr(e)[i] != Sep {
      LowerMatchesOnlyItself(e[i], Sep);
    }
  }

  lemma CombineAppend(d: string, s: string, x: string)
    ensures Combine(d, s + x) == Combine(d, s) + x
  {
    if d == "" {
    } else if d[|d| - 1] == Sep {
      assert d + (s + x) == (d + s) + x;
    } else {
      assert d + [Sep] + (s + x) == (d + [Sep] + s) + x;
    }
  }

  /** Lower-casing the extension changes the extension and nothing else:
      the directory and the stem stay, the extension is lower-cased, and
      the rest of the path keeps its characters. */
  lemma LowerExtensionOnlyTouchesExtension(p: string)
    requires SimplePath(p) && Ext(p) != ""
    ensures var r := LowerExtension(p);
      SimplePath(r) && DirName(r) == DirName(p) && Stem(r) == Stem(p) &&
      Ext(r) == LowerStr(Ext(p)) &&
      r == p[..|p| - |Ext(p)|] + LowerStr(Ext(p))
  {
    var d, s, e := DirName(p), Stem(p), Ext(p);
    SplitParts(p);
    LowerExtensionIsExtension(e);
    SplitCombine(d, s, LowerStr(e));
    CombineAppend(d, s, e);
    CombineAppend(d, s, LowerStr(e));
    assert p[..|p| - |e|] == Combine(d, s);
  }

  /** Doing the lower-casing step twice is the same as doing it once. */
  lemma ApplyLowerCaseIdempotent(on: bool, p: string)
    requires SimplePath(p)
    ensures ApplyLowerCase(on, ApplyLowerCase(on, p)) == ApplyLowerCase(on, p)
  {
    if on && Ext(p) != "" {
      var r := LowerExtension(p);
      LowerExtensionOnlyTouchesExtension(p);
      LowerStrIdempotent(Ext(p));
      assert Ext(r) != "";
      assert LowerExtension(r) == Combine(DirName(p), Stem(p) + LowerStr(LowerStr(Ext(p))));
    }
  }

  /** The step leaves a path with an empty extension alone, and it is
      nothing but a change of case: on Windows the result names the same
      file as the name it started from. */
  lemma ApplyLowerCaseSameFile(on: bool, p: string)
    requires SimplePath(p)
    ensures Ext(p) == "" ==> ApplyLowerCase(on, p) == p
    ensures Fold(ApplyLowerCase(on, p)) == Fold(p)
  {
    if on && Ext(p) != "" {
      var e := Ext(p);
      var pre := p[..|p| - |e|];
      LowerExtensionSuffix(p);
      FoldLowerSuffix(pre, e);
      assert Fold(ApplyLowerCase(on, p)) == LowerStr(pre + LowerStr(e));
    }
  }

  lemma LowerExtensionSuffix(p: string)
    requires SimplePath(p) && Ext(p) != ""
    ensures |Ext(p)| <= |p| && LowerExtension(p) == p[..|p| - |Ext(p)|] + LowerStr(Ext(p))
    ensures p == p[..|p| - |Ext(p)|] + Ext(p)
  {
    LowerExtensionOnlyTouchesExtension(p);
    SplitParts(p);
    CombineAppend(DirName(p), Stem(p), Ext(p));
  }

  lemma FoldLowerSuffix(pre: string, e: string)
    ensures LowerStr(pre + LowerStr(e)) == LowerStr(pre + e)
  {
    LowerStrConcat(pre, LowerStr(e));
    LowerStrIdempotent(e);
    LowerStrConcat(pre, e);
  }
}
