/**
 * String.prototype.trim and the regular-expression class \s, which the
 * contact-form validator relies on. Both use the same character set:
 * WhiteSpace and LineTerminator of ECMA-262 (ECMAScript 2024), sections 12.2
 * and 12.3.
 */
module Text {

  /** WhiteSpace (TAB, VT, FF, SP, NBSP, ZWNBSP and the other characters of
      the Unicode Zs category) and LineTerminator (LF, CR, LS, PS). */
  const WhitespaceChars: set<char> := {
    '\t', '\n', '\U{000B}', '\U{000C}', '\r', ' ', '\U{00A0}', '\U{1680}',
    '\U{2000}', '\U{2001}', '\U{2002}', '\U{2003}', '\U{2004}', '\U{2005}',
    '\U{2006}', '\U{2007}', '\U{2008}', '\U{2009}', '\U{200A}',
    '\U{2028}', '\U{2029}', '\U{202F}', '\U{205F}', '\U{3000}', '\U{FEFF}'
  }

  predicate IsWhitespace(c: char) {
    c in WhitespaceChars
  }

  predicate AllWhitespace(s: string) {
    forall k :: 0 <= k < |s| ==> IsWhitespace(s[k])
  }

  /** The number of whitespace characters s starts with. */
  function LeadingWhitespace(s: string): (n: nat)
    ensures n <= |s|
    ensures forall k :: 0 <= k < n ==> IsWhitespace(s[k])
    ensures n < |s| ==> !IsWhitespace(s[n])
  {
    if s != [] && IsWhitespace(s[0]) then 1 + LeadingWhitespace(s[1..]) else 0
  }

  /** Where the whitespace s ends with begins: |s| when s ends with a
      character that is not whitespace. */
  function TrailingWhitespaceStart(s: string): (m: nat)
    ensures m <= |s|
    ensures forall k :: m <= k < |s| ==> IsWhitespace(s[k])
    ensures 0 < m ==> !IsWhitespace(s[m - 1])
  {
    if s != [] && IsWhitespace(s[|s| - 1]) then TrailingWhitespaceStart(s[..|s| - 1]) else |s|
  }

  /** String.prototype.trim: TrimStart, then TrimEnd. The result is empty
      exactly when s is all whitespace; otherwise it starts and ends with a
      character that is not whitespace. */
  function Trim(s: string): (r: string)
    ensures r == [] <==> AllWhitespace(s)
    ensures r != [] ==> !IsWhitespace(r[0]) && !IsWhitespace(r[|r| - 1])
  {
    var n := LeadingWhitespace(s);
    var t := s[n..];
    var m := TrailingWhitespaceStart(t);
    assert forall k :: n <= k < |s| ==> s[k] == t[k - n];
    t[..m]
  }

  /** What trim keeps is one slice of s, and it drops only whitespace on
      either side of it. */
  lemma TrimIsSlice(s: string)
    ensures exists i, j :: 0 <= i <= j <= |s| && Trim(s) == s[i..j]
                           && AllWhitespace(s[..i]) && AllWhitespace(s[j..])
  {
    var n := LeadingWhitespace(s);
    var t := s[n..];
    var m := TrailingWhitespaceStart(t);
    assert Trim(s) == s[n..n + m];
    assert s[n + m..] == t[m..];
  }

  /** Trimming twice changes nothing more than trimming once. */
  lemma TrimIdempotent(s: string)
    ensures Trim(Trim(s)) == Trim(s)
  {
  }
}
