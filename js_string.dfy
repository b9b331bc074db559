/**
 * JavaScript's `String.prototype.trim`, on strings of Unicode scalar values.
 * `trim` removes from both ends every character that ECMAScript classes as
 * WhiteSpace or LineTerminator.
 */
module JsString {

  /** ECMAScript WhiteSpace (TAB, VT, FF, ZWNBSP and the Unicode Zs category) and LineTerminator (LF, CR, LS, PS). */
  predicate IsWhitespace(c: char) {
    || c == '\t' || c == '\n' || c == '\U{000B}' || c == '\U{000C}' || c == '\r'
    || c == ' ' || c == '\U{00A0}' || c == '\U{1680}' || ('\U{2000}' <= c <= '\U{200A}')
    || c == '\U{2028}' || c == '\U{2029}' || c == '\U{202F}' || c == '\U{205F}'
    || c == '\U{3000}' || c == '\U{FEFF}'
  }

  predicate AllWhitespace(s: string) {
    forall i :: 0 <= i < |s| ==> IsWhitespace(s[i])
  }

  /** Neither end of `s` is whitespace. */
  predicate IsTrimmed(s: string) {
    s == [] || (!IsWhitespace(s[0]) && !IsWhitespace(s[|s| - 1]))
  }

  /** `s` without its leading whitespace. */
  function TrimStart(s: string): (r: string)
    ensures |r| <= |s| && r == s[|s| - |r|..]
    ensures AllWhitespace(s[..|s| - |r|])
    ensures r == [] || !IsWhitespace(r[0])
  {
    if s != [] && IsWhitespace(s[0]) then TrimStart(s[1..]) else s
  }

  /** `s` without its trailing whitespace. */
  function TrimEnd(s: string): (r: string)
    ensures |r| <= |s| && r == s[..|r|]
    ensures AllWhitespace(s[|r|..])
    ensures r == [] || !IsWhitespace(r[|r| - 1])
  {
    if s != [] && IsWhitespace(s[|s| - 1]) then TrimEnd(s[..|s| - 1]) else s
  }

  /** `s.trim()`: the slice of `s` left once the whitespace at both ends is cut off. */
  function Trim(s: string): (r: string)
    ensures IsTrimmed(r)
    ensures |r| <= |s|
  {
    var t := TrimStart(s);
    var r := TrimEnd(t);
    assert r != [] ==> r[0] == t[0];
    r
  }

  /** Leading whitespace ending at the non-whitespace `s[i]` is exactly what TrimStart drops. */
  lemma {:induction false} TrimStartStopsAt(s: string, i: nat)
    requires i < |s| && AllWhitespace(s[..i]) && !IsWhitespace(s[i])
    ensures TrimStart(s) == s[i..]
  {
    if i > 0 {
      assert s[0] == s[..i][0];
      assert s[1..][..i - 1] == s[1..i];
      assert forall m :: 0 <= m < i - 1 ==> s[1..i][m] == s[..i][m + 1];
      TrimStartStopsAt(s[1..], i - 1);
      assert s[1..][i - 1..] == s[i..];
    }
  }

  /** Trailing whitespace starting after the non-whitespace `s[j - 1]` is exactly what TrimEnd drops. */
  lemma {:induction false} TrimEndStopsAt(s: string, j: nat)
    requires 0 < j <= |s| && AllWhitespace(s[j..]) && !IsWhitespace(s[j - 1])
    ensures TrimEnd(s) == s[..j]
  {
    if j < |s| {
      assert s[|s| - 1] == s[j..][|s| - 1 - j];
      var u := s[..|s| - 1];
      assert u[j..] == s[j..|s| - 1];
      assert forall m :: 0 <= m < |s| - 1 - j ==> u[j..][m] == s[j..][m];
      TrimEndStopsAt(u, j);
      assert u[..j] == s[..j];
    }
  }

  /** A string of whitespace only has nothing left after TrimStart. */
  lemma {:induction false} BlankTrimStartEmpty(s: string)
    requires AllWhitespace(s)
    ensures TrimStart(s) == []
  {
  }

  /** Whitespace around a non-empty trimmed middle `s[i..j]` is what Trim removes. */
  lemma TrimAroundMiddle(s: string, i: nat, j: nat)
    requires i < j <= |s|
    requires AllWhitespace(s[..i]) && AllWhitespace(s[j..])
    requires IsTrimmed(s[i..j])
    ensures Trim(s) == s[i..j]
  {
    var t := s[i..];
    assert TrimStart(s) == t by {
      assert s[i] == s[i..j][0];
      TrimStartStopsAt(s, i);
    }
    assert TrimEnd(t) == s[i..j] by {
      assert t[j - i - 1] == s[i..j][j - i - 1];
      assert t[j - i..] == s[j..];
      TrimEndStopsAt(t, j - i);
      assert t[..j - i] == s[i..j];
    }
  }

  /**
   * The reference definition of trimming: if `s[i..j]` has no whitespace at
   * either end and only whitespace lies outside it, then it is `s.trim()`.
   */
  lemma TrimIsSlice(s: string, i: nat, j: nat)
    requires i <= j <= |s|
    requires AllWhitespace(s[..i]) && AllWhitespace(s[j..])
    requires IsTrimmed(s[i..j])
    ensures Trim(s) == s[i..j]
  {
    if i == j {
      forall m | 0 <= m < |s| ensures IsWhitespace(s[m]) {
        if m < i { assert s[m] == s[..i][m]; } else { assert s[m] == s[j..][m - j]; }
      }
      BlankTrimStartEmpty(s);
    } else {
      TrimAroundMiddle(s, i, j);
    }
  }

  /** `s.trim()` is empty exactly when `s` is blank (empty or whitespace only). */
  lemma TrimEmptyIffBlank(s: string)
    ensures Trim(s) == [] <==> AllWhitespace(s)
  {
  }

  /** Trimming a trimmed string changes nothing. */
  lemma TrimTrimmed(s: string)
    requires IsTrimmed(s)
    ensures Trim(s) == s
  {
  }

  /** `trim` is idempotent. */
  lemma TrimIdempotent(s: string)
    ensures Trim(Trim(s)) == Trim(s)
  {
  }
}
