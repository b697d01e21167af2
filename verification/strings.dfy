/** String operations of the JavaScript runtime that the model relies on. */
module Strings {

  /** The characters `String.prototype.trim` removes: ECMAScript WhiteSpace and LineTerminator. */
  predicate IsJsWhitespace(c: char) {
    c == '\t' || c == '\n' || c == '\U{B}' || c == '\U{C}' || c == '\r' || c == ' '
    || c == '\U{A0}' || c == '\U{1680}' || ('\U{2000}' <= c <= '\U{200A}')
    || c == '\U{2028}' || c == '\U{2029}' || c == '\U{202F}' || c == '\U{205F}'
    || c == '\U{3000}' || c == '\U{FEFF}'
  }

  /** `s.trim() === ''`: every character is whitespace (the empty string included). */
  predicate IsBlank(s: string) {
    forall i :: 0 <= i < |s| ==> IsJsWhitespace(s[i])
  }

  /** Leading whitespace removed. */
  function TrimStart(s: string): (r: string)
    ensures |r| <= |s| && r == s[|s| - |r|..]
    ensures IsBlank(s[..|s| - |r|])
    ensures r == [] || !IsJsWhitespace(r[0])
    decreases |s|
  {
    if |s| > 0 && IsJsWhitespace(s[0]) then
      var r := TrimStart(s[1..]);
      assert s[|s| - |r|..] == s[1..][|s| - 1 - |r|..];
      assert s[..|s| - |r|] == [s[0]] + s[1..][..|s| - 1 - |r|];
      r
    else s
  }

  /** Trailing whitespace removed. */
  function TrimEnd(s: string): (r: string)
    ensures |r| <= |s| && r == s[..|r|]
    ensures IsBlank(s[|r|..])
    ensures r == [] || !IsJsWhitespace(r[|r| - 1])
    decreases |s|
  {
    if |s| > 0 && IsJsWhitespace(s[|s| - 1]) then
      var r := TrimEnd(s[..|s| - 1]);
      assert s[..|s| - 1][..|r|] == s[..|r|];
      assert s[|r|..] == s[..|s| - 1][|r|..] + [s[|s| - 1]];
      r
    else s
  }

  /** `String.prototype.trim`. */
  function Trim(s: string): string {
    TrimEnd(TrimStart(s))
  }

  /** A string trims to the empty string exactly when it is blank. */
  lemma {:induction false} TrimEmptyIffBlank(s: string)
    ensures Trim(s) == "" <==> IsBlank(s)
  {
    var t := TrimStart(s);
    if t != [] {
      assert t[0] == s[|s| - |t|];
    }
    if Trim(s) == "" {
      assert IsBlank(t[|TrimEnd(t)|..]);
      assert s[..|s|] == s;
    }
  }

  predicate StartsWith(s: string, prefix: string) {
    |prefix| <= |s| && s[..|prefix|] == prefix
  }

  /** `sub` occurs in `s` at position `i`. */
  predicate MatchesAt(s: string, sub: string, i: int) {
    0 <= i && i + |sub| <= |s| && s[i..i + |sub|] == sub
  }

  /** `String.prototype.includes`: `sub` occurs somewhere in `s`. */
  predicate Contains(s: string, sub: string) {
    exists i | 0 <= i <= |s| :: MatchesAt(s, sub, i)
  }

  /** A text contains the pieces it is built from. */
  lemma ContainsPiece(a: string, sub: string, b: string)
    ensures Contains(a + sub + b, sub)
  {
    assert MatchesAt(a + sub + b, sub, |a|);
  }

  /** A pattern with a character the text lacks does not occur in it. */
  lemma NotContainsWithout(s: string, sub: string, c: char)
    requires c in sub && c !in s
    ensures !Contains(s, sub)
  {
  }

  /** A pattern longer than the text does not occur in it. */
  lemma NotContainsShort(s: string, sub: string)
    requires |s| < |sub|
    ensures !Contains(s, sub)
  {
  }

  /**
   * When `a` ends on a character that is not in the pattern, no occurrence
   * can straddle the seam, so the pattern occurs in `a + b` exactly when it
   * occurs in `a` or in `b`.
   */
  lemma {:induction false} ContainsSplit(a: string, b: string, sub: string)
    requires a != [] && a[|a| - 1] !in sub
    ensures Contains(a + b, sub) <==> Contains(a, sub) || Contains(b, sub)
  {
    var s := a + b;
    if Contains(s, sub) {
      var i :| 0 <= i <= |s| && MatchesAt(s, sub, i);
      if i + |sub| <= |a| {
        assert s[i..i + |sub|] == a[i..i + |sub|];
        assert MatchesAt(a, sub, i);
      } else if i >= |a| {
        assert s[i..i + |sub|] == b[i - |a|..i - |a| + |sub|];
        assert MatchesAt(b, sub, i - |a|);
      } else {
        NoMatchAcrossSeam(a, b, sub, i);
      }
    }
    if Contains(a, sub) {
      var j :| 0 <= j <= |a| && MatchesAt(a, sub, j);
      assert s[j..j + |sub|] == a[j..j + |sub|];
      assert MatchesAt(s, sub, j);
    }
    if Contains(b, sub) {
      var j :| 0 <= j <= |b| && MatchesAt(b, sub, j);
      assert s[|a| + j..|a| + j + |sub|] == b[j..j + |sub|];
      assert MatchesAt(s, sub, |a| + j);
    }
  }

  /** No occurrence of `sub` covers the last character of `a` when that character is not in `sub`. */
  lemma NoMatchAcrossSeam(a: string, b: string, sub: string, i: int)
    requires a != [] && a[|a| - 1] !in sub
    requires 0 <= i < |a| < i + |sub|
    ensures !MatchesAt(a + b, sub, i)
  {
    if i + |sub| <= |a + b| {
      assert (a + b)[i..i + |sub|][|a| - 1 - i] == a[|a| - 1];
    }
  }

  /** `ContainsSplit` for a text built as `x + piece + b`, the seam right after `piece`. */
  lemma ContainsSplitAfter(x: string, piece: string, b: string, sub: string)
    requires piece != [] && piece[|piece| - 1] !in sub
    ensures Contains(x + piece + b, sub) <==> Contains(x + piece, sub) || Contains(b, sub)
  {
    assert (x + piece)[|x + piece| - 1] == piece[|piece| - 1];
    ContainsSplit(x + piece, b, sub);
  }

  /** `Array.prototype.join` over strings. */
  function Join(parts: seq<string>, separator: string): string
    decreases |parts|
  {
    if |parts| == 0 then ""
    else if |parts| == 1 then parts[0]
    else parts[0] + separator + Join(parts[1..], separator)
  }

  /** The decimal digits of a natural number, as `${n}` prints it. */
  function NatToString(n: nat): (r: string)
    ensures r != []
    ensures forall i :: 0 <= i < |r| ==> '0' <= r[i] <= '9'
    decreases n
  {
    var digit := ['0' + (n % 10) as char];
    if n < 10 then digit else NatToString(n / 10) + digit
  }

  /** The decimal rendering of an integer. */
  function IntToString(n: int): string {
    if n < 0 then "-" + NatToString(-n) else NatToString(n)
  }
}
