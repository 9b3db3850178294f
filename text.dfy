/** The string primitives the domain relies on: `String.prototype.trim`,
    `toLowerCase`, `includes` and the regular-expression class `\s`. */
module Text {

  /** ECMAScript WhiteSpace and LineTerminator code points: exactly what
      `trim` removes and what `\s` matches. */
  predicate IsSpace(c: char) {
    || c == '\t' || c == '\n' || c == '\U{000B}' || c == '\U{000C}' || c == '\r'
    || c == ' ' || c == '\U{00A0}' || c == '\U{1680}'
    || ('\U{2000}' <= c <= '\U{200A}')
    || c == '\U{2028}' || c == '\U{2029}' || c == '\U{202F}' || c == '\U{205F}'
    || c == '\U{3000}' || c == '\U{FEFF}'
  }

  /** Empty or made of whitespace only. */
  predicate IsBlank(s: string) {
    forall i :: 0 <= i < |s| ==> IsSpace(s[i])
  }

  /** Neither starts nor ends with whitespace. */
  predicate IsTrimmed(s: string) {
    s == [] || (!IsSpace(s[0]) && !IsSpace(s[|s| - 1]))
  }

  function TrimStart(s: string): (r: string)
    ensures |r| <= |s| && r == s[|s| - |r|..]
    ensures IsBlank(s[..|s| - |r|])
    ensures r == [] || !IsSpace(r[0])
  {
    if |s| > 0 && IsSpace(s[0]) then
      var t := s[1..];
      var r := TrimStart(t);
      BlankPrefixCons(s, |s| - |r|);
      assert t[|t| - |r|..] == s[|s| - |r|..];
      r
    else s
  }

  /** A blank prefix of the tail, after a whitespace head, is a blank
      prefix of the whole. */
  lemma BlankPrefixCons(s: string, n: nat)
    requires 0 < n <= |s| && IsSpace(s[0]) && IsBlank(s[1..][..n - 1])
    ensures IsBlank(s[..n])
  {
    forall k | 0 <= k < n
      ensures IsSpace(s[..n][k])
    {
      if k > 0 { assert s[..n][k] == s[1..][..n - 1][k - 1]; }
    }
  }

  function TrimEnd(s: string): (r: string)
    ensures |r| <= |s| && r == s[..|r|]
    ensures IsBlank(s[|r|..])
    ensures r == [] || !IsSpace(r[|r| - 1])
  {
    if |s| > 0 && IsSpace(s[|s| - 1]) then
      var r := TrimEnd(s[..|s| - 1]);
      assert s[|r|..] == s[..|s| - 1][|r|..] + [s[|s| - 1]];
      r
    else s
  }

  /** `s.trim()`: the longest infix of `s` that neither starts nor ends with
      whitespace, with only whitespace cut off either side. */
  function Trim(s: string): (r: string)
    ensures IsTrimmed(r)
    ensures |r| <= |s|
  {
    TrimEnd(TrimStart(s))
  }

  /** `r` is the infix of `s` at position `i` with only whitespace on
      either side of it. */
  predicate IsCut(s: string, r: string, i: int) {
    0 <= i && i + |r| <= |s| && r == s[i..i + |r|]
    && IsBlank(s[..i]) && IsBlank(s[i + |r|..])
  }

  /** What `trim` removes is whitespace and nothing else: the result is the
      infix of `s` between a blank prefix and a blank suffix. */
  lemma TrimCutsOnlySpace(s: string)
    ensures exists i :: IsCut(s, Trim(s), i)
  {
    var a := TrimStart(s);
    CutBetweenBlanks(s, a, TrimEnd(a));
    assert IsCut(s, Trim(s), |s| - |a|);
  }

  /** A blank-prefixed suffix `a` of `s`, cut again before a blank suffix of
      its own, leaves an infix of `s` between blanks. */
  lemma CutBetweenBlanks(s: string, a: string, r: string)
    requires |a| <= |s| && a == s[|s| - |a|..] && IsBlank(s[..|s| - |a|])
    requires |r| <= |a| && r == a[..|r|] && IsBlank(a[|r|..])
    ensures IsCut(s, r, |s| - |a|)
  {
    SuffixSlices(s, a, |r|);
  }

  /** Splitting a suffix `a` of `s` splits `s` at the matching position. */
  lemma SuffixSlices(s: string, a: string, m: nat)
    requires |a| <= |s| && a == s[|s| - |a|..] && m <= |a|
    ensures a[..m] == s[|s| - |a|..|s| - |a| + m]
    ensures a[m..] == s[|s| - |a| + m..]
  {
  }

  /** `s.trim().length === 0` exactly when `s` is blank. */
  lemma TrimEmptyIffBlank(s: string)
    ensures Trim(s) == [] <==> IsBlank(s)
  {
    var a := TrimStart(s);
    var n := |s| - |a|;
    if a != [] {
      assert a[0] == s[n];
    } else {
      assert s[..n] == s;
    }
  }

  /** A trimmed string is left alone by `trim`. */
  lemma TrimOfTrimmed(s: string)
    requires IsTrimmed(s)
    ensures Trim(s) == s
  {
  }

  lemma TrimIdempotent(s: string)
    ensures Trim(Trim(s)) == Trim(s)
  {
    TrimOfTrimmed(Trim(s));
  }

  /** Lower-casing of one character (ASCII letters; see README). */
  function LowerChar(c: char): char {
    if 'A' <= c <= 'Z' then (c as int - 'A' as int + 'a' as int) as char else c
  }

  /** `s.toLowerCase()`, character by character. */
  function ToLower(s: string): (r: string)
    ensures |r| == |s|
    ensures forall i :: 0 <= i < |s| ==> r[i] == LowerChar(s[i])
  {
    if s == [] then [] else [LowerChar(s[0])] + ToLower(s[1..])
  }

  lemma {:induction false} ToLowerIdempotent(s: string)
    ensures ToLower(ToLower(s)) == ToLower(s)
  {
    var r := ToLower(s);
    assert forall i :: 0 <= i < |s| ==> ToLower(r)[i] == r[i];
  }

  /** Lower-casing leaves whitespace where it was. */
  lemma ToLowerKeepsTrimmed(s: string)
    requires IsTrimmed(s)
    ensures IsTrimmed(ToLower(s))
  {
  }

  /** `s.includes(q)`: `q` occurs in `s` as a contiguous infix. A prefix
      is found, and nothing longer than `s` is. */
  function Contains(s: string, q: string): (b: bool)
    ensures q <= s ==> b
    ensures b ==> |q| <= |s|
  {
    q <= s || (s != [] && Contains(s[1..], q))
  }

  /** `q` occurs in `s` starting at position `i`. */
  predicate OccursAt(s: string, q: string, i: int) {
    0 <= i && i + |q| <= |s| && s[i..i + |q|] == q
  }

  /** An occurrence past the first position is an occurrence in the tail. */
  lemma OccursInTail(s: string, q: string, i: int)
    requires s != [] && OccursAt(s, q, i) && i != 0
    ensures OccursAt(s[1..], q, i - 1)
  {
    assert s[1..][i - 1..i - 1 + |q|] == s[i..i + |q|];
  }

  /** An occurrence in the tail is an occurrence one position later. */
  lemma OccursFromTail(s: string, q: string, i: int)
    requires s != [] && OccursAt(s[1..], q, i)
    ensures OccursAt(s, q, i + 1)
  {
    assert s[1..][i..i + |q|] == s[i + 1..i + 1 + |q|];
  }

  /** `Contains` searches every start position of `s`. */
  lemma {:induction false} ContainsIffOccurs(s: string, q: string)
    ensures Contains(s, q) <==> exists i :: OccursAt(s, q, i)
  {
    if q <= s {
      assert OccursAt(s, q, 0);
    } else if s != [] {
      ContainsIffOccurs(s[1..], q);
      if exists i :: OccursAt(s, q, i) {
        var i :| OccursAt(s, q, i);
        assert i != 0;
        OccursInTail(s, q, i);
      }
      if exists i :: OccursAt(s[1..], q, i) {
        var i :| OccursAt(s[1..], q, i);
        OccursFromTail(s, q, i);
      }
    }
  }
}
