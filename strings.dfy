/**
 * The JavaScript string built-ins the components rely on:
 * `String.prototype.includes` and `String.prototype.trim`.
 */
module Strings {

  /** `t` occurs in `s` starting at index `i`. */
  predicate OccursAt(s: string, t: string, i: nat)
    requires i + |t| <= |s|
  {
    s[i..i + |t|] == t
  }

  /** `s.includes(t)`: `t` occurs in `s` as a contiguous block. */
  function Contains(s: string, t: string): (r: bool)
    ensures r <==> exists i: nat :: i + |t| <= |s| && OccursAt(s, t, i)
    ensures t == [] ==> r
  {
    assert t == [] ==> OccursAt(s, t, 0);
    exists i: nat | i + |t| <= |s| :: OccursAt(s, t, i)
  }

  /**
   * The characters `trim` removes: ECMAScript's WhiteSpace (tab, vertical
   * tab, form feed, the byte order mark and the Unicode space separators)
   * and LineTerminator (line feed, carriage return, line and paragraph
   * separators).
   */
  const Whitespace: set<char> := {
    '\U{9}', '\U{B}', '\U{C}', '\U{FEFF}', '\U{20}', '\U{A0}', '\U{1680}',
    '\U{2000}', '\U{2001}', '\U{2002}', '\U{2003}', '\U{2004}', '\U{2005}',
    '\U{2006}', '\U{2007}', '\U{2008}', '\U{2009}', '\U{200A}',
    '\U{202F}', '\U{205F}', '\U{3000}',
    '\U{A}', '\U{D}', '\U{2028}', '\U{2029}'
  }

  predicate IsWhitespace(c: char) {
    c in Whitespace
  }

  ghost predicate AllWhitespace(s: string) {
    forall i :: 0 <= i < |s| ==> IsWhitespace(s[i])
  }

  /** The number of whitespace characters `s` starts with. */
  function LeadingWhitespace(s: string): (n: nat)
    ensures n <= |s|
    ensures forall i :: 0 <= i < n ==> IsWhitespace(s[i])
    ensures n == |s| || !IsWhitespace(s[n])
  {
    if s != [] && IsWhitespace(s[0]) then
      var m := LeadingWhitespace(s[1..]);
      assert forall i :: 0 < i <= m ==> s[i] == s[1..][i - 1];
      1 + m
    else 0
  }

  /** The number of whitespace characters `s` ends with. */
  function TrailingWhitespace(s: string): (n: nat)
    ensures n <= |s|
    ensures forall i :: |s| - n <= i < |s| ==> IsWhitespace(s[i])
    ensures n == |s| || !IsWhitespace(s[|s| - 1 - n])
  {
    if s != [] && IsWhitespace(s[|s| - 1]) then
      var m := TrailingWhitespace(s[..|s| - 1]);
      assert forall i :: |s| - 1 - m <= i < |s| - 1 ==> s[i] == s[..|s| - 1][i];
      1 + m
    else 0
  }

  /** Drops leading whitespace: the result is a suffix of `s`. */
  function TrimStart(s: string): (r: string)
    ensures |r| <= |s| && r == s[|s| - |r|..]
    ensures AllWhitespace(s[..|s| - |r|])
    ensures r == [] || !IsWhitespace(r[0])
  {
    var n := LeadingWhitespace(s);
    assert forall i :: 0 <= i < n ==> s[..n][i] == s[i];
    s[n..]
  }

  /** Drops trailing whitespace: the result is a prefix of `s`. */
  function TrimEnd(s: string): (r: string)
    ensures |r| <= |s| && r == s[..|r|]
    ensures AllWhitespace(s[|r|..])
    ensures r == [] || !IsWhitespace(r[|r| - 1])
  {
    var n := TrailingWhitespace(s);
    var k := |s| - n;
    assert forall i :: 0 <= i < n ==> s[k..][i] == s[k + i];
    s[..k]
  }

  /** `s` is `r` with whitespace before (up to index `i`) and after it. */
  ghost predicate Padded(s: string, r: string, i: int) {
    0 <= i <= |s| - |r| && s[i..i + |r|] == r &&
    AllWhitespace(s[..i]) && AllWhitespace(s[i + |r|..])
  }

  /**
   * `s.trim()`: `s` is the result with whitespace before and after it, and
   * the result neither starts nor ends with whitespace.
   */
  function Trim(s: string): (r: string)
    ensures exists i :: Padded(s, r, i)
    ensures r == [] || (!IsWhitespace(r[0]) && !IsWhitespace(r[|r| - 1]))
  {
    var t := TrimStart(s);
    var r := TrimEnd(t);
    TrimPadded(s, t, r);
    TrimmedEnds(t, r);
    r
  }

  lemma TrimPadded(s: string, t: string, r: string)
    requires |t| <= |s| && t == s[|s| - |t|..] && AllWhitespace(s[..|s| - |t|])
    requires |r| <= |t| && r == t[..|r|] && AllWhitespace(t[|r|..])
    ensures Padded(s, r, |s| - |t|)
  {
    var i := |s| - |t|;
    assert s[i..i + |r|] == t[..|r|];
    assert s[i + |r|..] == t[|r|..];
  }

  lemma TrimmedEnds(t: string, r: string)
    requires t == [] || !IsWhitespace(t[0])
    requires |r| <= |t| && r == t[..|r|]
    requires r == [] || !IsWhitespace(r[|r| - 1])
    ensures r == [] || (!IsWhitespace(r[0]) && !IsWhitespace(r[|r| - 1]))
  {
    if r != [] {
      assert r[0] == t[0];
    }
  }

  /** A string trims to the empty string exactly when it is all whitespace. */
  lemma TrimEmptyIffBlank(s: string)
    ensures Trim(s) == [] <==> AllWhitespace(s)
  {
    var r := Trim(s);
    var i :| Padded(s, r, i);
    if r == [] {
      forall k | 0 <= k < |s| ensures IsWhitespace(s[k]) {
        if k < i { assert s[k] == s[..i][k]; } else { assert s[k] == s[i..][k - i]; }
      }
    } else {
      assert s[i] == r[0];
    }
  }

  /** Trimming twice gives what trimming once gives. */
  lemma TrimIdempotent(s: string)
    ensures Trim(Trim(s)) == Trim(s)
  {
    var r := Trim(s);
    UntrimmedStart(r);
    UntrimmedEnd(r);
    assert Trim(r) == TrimEnd(TrimStart(r));
  }

  /** A string that does not start with whitespace is its own TrimStart. */
  lemma UntrimmedStart(r: string)
    requires r == [] || !IsWhitespace(r[0])
    ensures TrimStart(r) == r
  {
    assert LeadingWhitespace(r) == 0;
  }

  /** A string that does not end with whitespace is its own TrimEnd. */
  lemma UntrimmedEnd(r: string)
    requires r == [] || !IsWhitespace(r[|r| - 1])
    ensures TrimEnd(r) == r
  {
    assert TrailingWhitespace(r) == 0;
  }
}
