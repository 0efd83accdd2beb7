/** String operations the window relies on: ASCII lower-casing (`ToLower`),
    searching for a character from the end (`LastIndexOf`), `Contains`,
    `Replace` of every occurrence, and the ordinal order the camera sort uses. */
module Text {

  /** `char.ToLower` restricted to ASCII: 'A'..'Z' become 'a'..'z'. */
  function Lower(c: char): char {
    if 'A' <= c <= 'Z' then (c as int + 32) as char else c
  }

  function LowerStr(s: string): (r: string)
    ensures |r| == |s|
    ensures forall i :: 0 <= i < |s| ==> r[i] == Lower(s[i])
  {
    seq(|s|, i requires 0 <= i < |s| => Lower(s[i]))
  }

  /** A character that is not a letter is left alone by `Lower`, and
      nothing else is lowered onto it. */
  predicate NotLetter(c: char) {
    !('A' <= c <= 'Z') && !('a' <= c <= 'z')
  }

  lemma LowerMatchesOnlyItself(x: char, c: char)
    requires NotLetter(c)
    ensures Lower(x) == c <==> x == c
  {
  }

  lemma LowerStrConcat(a: string, b: string)
    ensures LowerStr(a + b) == LowerStr(a) + LowerStr(b)
  {
    assert forall i :: 0 <= i < |a + b| ==> LowerStr(a + b)[i] == (LowerStr(a) + LowerStr(b))[i];
  }

  lemma LowerStrIdempotent(s: string)
    ensures LowerStr(LowerStr(s)) == LowerStr(s)
  {
    assert forall i :: 0 <= i < |s| ==> LowerStr(LowerStr(s))[i] == LowerStr(s)[i];
  }

  /** Index of the last occurrence of `c` in `s`, or -1 (`String.LastIndexOf`). */
  function LastIndexOf(s: string, c: char): (r: int)
    ensures -1 <= r < |s|
    ensures r >= 0 ==> s[r] == c
    ensures forall j :: r < j < |s| ==> s[j] != c
    decreases |s|
  {
    if |s| == 0 then -1
    else if s[|s| - 1] == c then |s| - 1
    else LastIndexOf(s[..|s| - 1], c)
  }

  /** Lower-casing moves no separator or dot. */
  lemma {:induction false} LastIndexOfLower(s: string, c: char)
    requires NotLetter(c)
    ensures LastIndexOf(LowerStr(s), c) == LastIndexOf(s, c)
    decreases |s|
  {
    if |s| > 0 {
      LowerMatchesOnlyItself(s[|s| - 1], c);
      if s[|s| - 1] != c {
        assert LowerStr(s)[..|s| - 1] == LowerStr(s[..|s| - 1]);
        LastIndexOfLower(s[..|s| - 1], c);
      }
    }
  }

  predicate OccursAt(s: string, pat: string, i: nat) {
    i + |pat| <= |s| && s[i..i + |pat|] == pat
  }

  /** `String.Contains`. */
  predicate Contains(s: string, pat: string) {
    exists i: nat | i <= |s| :: OccursAt(s, pat, i)
  }

  /** `String.Replace(pat, rep)`: every occurrence, left to right, without overlap. */
  function ReplaceAll(s: string, pat: string, rep: string): string
    requires |pat| > 0
    decreases |s|
  {
    if |s| < |pat| then s
    else if s[..|pat|] == pat then rep + ReplaceAll(s[|pat|..], pat, rep)
    else [s[0]] + ReplaceAll(s[1..], pat, rep)
  }

  lemma OccursInConcat(a: string, b: string, pat: string, i: nat)
    requires OccursAt(b, pat, i)
    ensures OccursAt(a + b, pat, |a| + i)
  {
    assert (a + b)[|a| + i..|a| + i + |pat|] == b[i..i + |pat|];
  }

  /** A string with no occurrence of the pattern is returned as it is. */
  lemma {:induction false} ReplaceAbsent(s: string, pat: string, rep: string)
    requires |pat| > 0 && !Contains(s, pat)
    ensures ReplaceAll(s, pat, rep) == s
    decreases |s|
  {
    if |s| >= |pat| {
      assert !OccursAt(s, pat, 0);
      assert !Contains(s[1..], pat) by {
        forall i: nat | i <= |s[1..]| && OccursAt(s[1..], pat, i) ensures false {
          assert [s[0]] + s[1..] == s;
          OccursInConcat([s[0]], s[1..], pat, i);
        }
      }
      ReplaceAbsent(s[1..], pat, rep);
    }
  }

  /** Where the pattern occurs, the replacement appears in the result. */
  lemma {:induction false} ReplacePresent(s: string, pat: string, rep: string)
    requires |pat| > 0 && Contains(s, pat)
    ensures Contains(ReplaceAll(s, pat, rep), rep)
    decreases |s|
  {
    var i: nat :| i <= |s| && OccursAt(s, pat, i);
    if s[..|pat|] == pat {
      assert OccursAt(rep + ReplaceAll(s[|pat|..], pat, rep), rep, 0);
    } else {
      assert !OccursAt(s, pat, 0) by { assert s[0..|pat|] == s[..|pat|]; }
      var t := s[1..];
      assert t[i - 1..i - 1 + |pat|] == s[i..i + |pat|];
      assert OccursAt(t, pat, i - 1);
      ReplacePresent(s[1..], pat, rep);
      var j: nat :| j <= |ReplaceAll(s[1..], pat, rep)| && OccursAt(ReplaceAll(s[1..], pat, rep), rep, j);
      OccursInConcat([s[0]], ReplaceAll(s[1..], pat, rep), rep, j);
    }
  }

  /** Ordinal string order (`String.CompareOrdinal(a, b) < 0`). */
  predicate StrLess(a: string, b: string)
    decreases |a|
  {
    if |a| == 0 then |b| > 0
    else if |b| == 0 then false
    else if a[0] != b[0] then a[0] < b[0]
    else StrLess(a[1..], b[1..])
  }

  lemma {:induction false} StrLessIrreflexive(a: string)
    ensures !StrLess(a, a)
    decreases |a|
  {
    if |a| > 0 { StrLessIrreflexive(a[1..]); }
  }

  lemma {:induction false} StrLessTransitive(a: string, b: string, c: string)
    requires StrLess(a, b) && StrLess(b, c)
    ensures StrLess(a, c)
    decreases |a|
  {
    if |a| > 0 && |b| > 0 && |c| > 0 && a[0] == b[0] == c[0] {
      StrLessTransitive(a[1..], b[1..], c[1..]);
    }
  }

  lemma {:induction false} StrLessTotal(a: string, b: string)
    requires a != b
    ensures StrLess(a, b) || StrLess(b, a)
    decreases |a|
  {
    if |a| > 0 && |b| > 0 && a[0] == b[0] {
      assert a == [a[0]] + a[1..] && b == [b[0]] + b[1..];
      StrLessTotal(a[1..], b[1..]);
    }
  }
}
