/** Character classes and string helpers shared by the URL matcher and the quota test.
    Python's `\w` and `\s` are Unicode-aware; here they are given their ASCII members
    (see README, "Left out"). */
module Text {

  /** `\w` on ASCII: letters, digits and the underscore. */
  predicate IsWordChar(c: char) {
    ('a' <= c <= 'z') || ('A' <= c <= 'Z') || ('0' <= c <= '9') || c == '_'
  }

  /** The class `[\w\-]` that video identifiers are drawn from. */
  predicate IsIdChar(c: char) {
    IsWordChar(c) || c == '-'
  }

  /** `\s` and `str.isspace` on ASCII: space, tab to carriage return, and the four
      separators 0x1C to 0x1F. */
  predicate IsSpace(c: char) {
    c == ' ' || ('\t' <= c <= '\r') || ('\U{1C}' <= c <= '\U{1F}')
  }

  predicate AllIdChars(s: string) {
    forall i :: 0 <= i < |s| ==> IsIdChar(s[i])
  }

  predicate NoSpace(s: string) {
    forall i :: 0 <= i < |s| ==> !IsSpace(s[i])
  }

  predicate StartsWith(s: string, p: string) {
    |p| <= |s| && s[..|p|] == p
  }

  /** Length of the longest prefix of `s` drawn from `[\w\-]`. */
  function IdRun(s: string): (n: nat)
    ensures n <= |s|
    ensures AllIdChars(s[..n])
    ensures n < |s| ==> !IsIdChar(s[n])
  {
    if s == [] || !IsIdChar(s[0]) then 0
    else
      var k := IdRun(s[1..]);
      assert s[1..][..k] == s[1..k + 1];
      1 + k
  }

  /** Length of the longest prefix of `s` drawn from `\S`. */
  function NonSpaceRun(s: string): (n: nat)
    ensures n <= |s|
    ensures NoSpace(s[..n])
    ensures n < |s| ==> IsSpace(s[n])
  {
    if s == [] || IsSpace(s[0]) then 0
    else
      var k := NonSpaceRun(s[1..]);
      assert s[1..][..k] == s[1..k + 1];
      1 + k
  }

  /** The three properties in IdRun's contract pin the run down: any length with
      them is IdRun. */
  lemma {:induction false} IdRunIs(s: string, m: nat)
    requires m <= |s| && AllIdChars(s[..m])
    requires m < |s| ==> !IsIdChar(s[m])
    ensures IdRun(s) == m
  {
    if m > 0 {
      assert s[..m][0] == s[0];
      assert s[1..][..m - 1] == s[..m][1..];
      IdRunIs(s[1..], m - 1);
    }
  }

  lemma {:induction false} NonSpaceRunIs(s: string, m: nat)
    requires m <= |s| && NoSpace(s[..m])
    requires m < |s| ==> IsSpace(s[m])
    ensures NonSpaceRun(s) == m
  {
    if m > 0 {
      assert s[..m][0] == s[0];
      assert s[1..][..m - 1] == s[..m][1..];
      NonSpaceRunIs(s[1..], m - 1);
    }
  }

  /** `w` occurs in `s` starting at index `i`. */
  predicate OccursAt(s: string, w: string, i: int) {
    0 <= i && i + |w| <= |s| && s[i..i + |w|] == w
  }

  /** Python's `w in s` on strings. */
  predicate Contains(s: string, w: string) {
    exists i :: 0 <= i <= |s| - |w| && OccursAt(s, w, i)
  }

  /** Python's `s.lstrip()`: drops leading whitespace. */
  function TrimStart(s: string): (r: string)
    ensures |r| <= |s| && r == s[|s| - |r|..]
    ensures forall i :: 0 <= i < |s| - |r| ==> IsSpace(s[i])
    ensures r == [] || !IsSpace(r[0])
  {
    if s != [] && IsSpace(s[0]) then TrimStart(s[1..]) else s
  }

  /** Python's `s.rstrip()`: drops trailing whitespace. */
  function TrimEnd(s: string): (r: string)
    ensures |r| <= |s| && r == s[..|r|]
    ensures forall i :: |r| <= i < |s| ==> IsSpace(s[i])
    ensures r == [] || !IsSpace(r[|r| - 1])
  {
    if s != [] && IsSpace(s[|s| - 1]) then TrimEnd(s[..|s| - 1]) else s
  }

  /** Python's `s.strip()` with no argument. */
  function Strip(s: string): string {
    TrimEnd(TrimStart(s))
  }

  /** What strip leaves is a slice of the input with only whitespace around it. */
  lemma StripShape(s: string) returns (a: nat)
    ensures a + |Strip(s)| <= |s| && Strip(s) == s[a..a + |Strip(s)|]
    ensures forall i :: 0 <= i < a ==> IsSpace(s[i])
    ensures forall i :: a + |Strip(s)| <= i < |s| ==> IsSpace(s[i])
  {
    var t := TrimStart(s);
    a := |s| - |t|;
    var r := TrimEnd(t);
    forall i | a + |r| <= i < |s|
      ensures IsSpace(s[i])
    {
      assert s[i] == t[i - a];
    }
  }

  /** What strip leaves neither starts nor ends with whitespace. */
  lemma StripEnds(s: string)
    ensures Strip(s) == [] || (!IsSpace(Strip(s)[0]) && !IsSpace(Strip(s)[|Strip(s)| - 1]))
  {
    var t := TrimStart(s);
    assert TrimEnd(t) != [] ==> TrimEnd(t)[0] == t[0];
  }

  lemma SliceOfSlice(s: string, a: int, n: int, j: int, m: int)
    requires 0 <= a && a + n <= |s| && 0 <= j && 0 <= m && j + m <= n
    ensures s[a..a + n][j..j + m] == s[a + j..a + j + m]
  {
    var x := s[a..a + n][j..j + m];
    var y := s[a + j..a + j + m];
    assert forall k :: 0 <= k < m ==> x[k] == y[k];
  }

  /** An occurrence in the stripped text is an occurrence in the original. */
  lemma StripOccurrenceLifts(s: string, w: string, j: int)
    requires OccursAt(Strip(s), w, j)
    ensures Contains(s, w)
  {
    var x := Strip(s);
    var a := StripShape(s);
    assert x == s[a..a + |x|];
    OccurrenceLifts(s, x, a, w, j);
  }

  /** An occurrence in a slice is an occurrence in the whole. */
  lemma OccurrenceLifts(s: string, x: string, a: int, w: string, j: int)
    requires 0 <= a && a + |x| <= |s| && x == s[a..a + |x|]
    requires OccursAt(x, w, j)
    ensures Contains(s, w)
  {
    SliceOfSlice(s, a, |x|, j, |w|);
    assert OccursAt(s, w, a + j);
  }

  /** Characters that are not whitespace lie inside what strip keeps. */
  lemma NonSpaceKept(s: string, i: int, e: int) returns (a: nat)
    requires 0 <= i <= e < |s| && !IsSpace(s[i]) && !IsSpace(s[e])
    ensures a + |Strip(s)| <= |s| && Strip(s) == s[a..a + |Strip(s)|]
    ensures a <= i && e < a + |Strip(s)|
  {
    a := StripShape(s);
    var n := |Strip(s)|;
    assert forall k :: 0 <= k < a ==> IsSpace(s[k]);
    assert forall k :: a + n <= k < |s| ==> IsSpace(s[k]);
  }

  /** An occurrence inside a slice is an occurrence in the slice. */
  lemma OccurrenceInSlice(s: string, w: string, i: int, x: string, a: int)
    requires 0 <= a <= i && i + |w| <= a + |x| <= |s| && x == s[a..a + |x|]
    requires OccursAt(s, w, i)
    ensures Contains(x, w)
  {
    SliceOfSlice(s, a, |x|, i - a, |w|);
    assert OccursAt(x, w, i - a);
  }

  /** A non-empty occurrence of a word without whitespace survives stripping. */
  lemma OccurrenceSurvivesStrip(s: string, w: string, i: int)
    requires NoSpace(w) && w != []
    requires OccursAt(s, w, i)
    ensures Contains(Strip(s), w)
  {
    var e := i + |w| - 1;
    assert !IsSpace(w[0]) && !IsSpace(w[|w| - 1]);
    assert s[i..i + |w|] == w;
    assert s[i] == w[0];
    assert s[e] == w[|w| - 1];
    var a := NonSpaceKept(s, i, e);
    OccurrenceInSlice(s, w, i, Strip(s), a);
  }

  /** Stripping cannot create or destroy an occurrence of a word without whitespace:
      such a word starts and ends on characters that strip keeps. */
  lemma StripKeepsWord(s: string, w: string)
    requires NoSpace(w)
    ensures Contains(Strip(s), w) <==> Contains(s, w)
  {
    if Contains(Strip(s), w) {
      var j :| 0 <= j <= |Strip(s)| - |w| && OccursAt(Strip(s), w, j);
      StripOccurrenceLifts(s, w, j);
    }
    if Contains(s, w) {
      var i :| 0 <= i <= |s| - |w| && OccursAt(s, w, i);
      if w == [] {
        assert OccursAt(Strip(s), w, 0);
      } else {
        OccurrenceSurvivesStrip(s, w, i);
      }
    }
  }

  // Regrouping of concatenations, kept apart so that callers need not redo the
  // element-wise reasoning.

  lemma Assoc3(a: string, b: string, c: string)
    ensures a + b + c == a + (b + c)
  {
  }

  lemma Assoc4(a: string, b: string, c: string, d: string)
    ensures a + b + c + d == a + (b + c + d)
  {
  }

  lemma Assoc5(a: string, b: string, c: string, d: string, e: string)
    ensures a + b + c + d + e == a + (b + c + d + e)
  {
  }

  lemma Assoc6(a: string, b: string, c: string, d: string, e: string, f: string)
    ensures a + b + c + d + e + f == a + (b + c + d + e + f)
  {
  }
}
