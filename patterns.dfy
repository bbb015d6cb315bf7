/**
 * The two regular expressions of validateField, as predicates on strings:
 *   email  /^[^\s@]+@[^\s@]+\.[^\s@]+$/
 *   phone  /^[\+]?[0-9\s\-\(\)]+$/
 * Each is given twice: once read off the pattern as a concatenation of its
 * parts (a ghost predicate with the split points as witnesses), once as a
 * computed test; a lemma or contract proves the two agree on every string.
 */
module Patterns {
  import opened Text

  /** The class [^\s@]. */
  predicate IsAddressChar(c: char) {
    !IsWhitespace(c) && c != '@'
  }

  predicate AllAddressChars(s: string) {
    forall k :: 0 <= k < |s| ==> IsAddressChar(s[k])
  }

  /** The email pattern split at positions i (the "@") and j (the "."): a
      local part, a domain and a top-level part, each one or more characters
      of [^\s@]. */
  ghost predicate EmailSplit(v: string, i: int, j: int) {
    0 < i && i + 1 < j && j + 1 < |v| && v[i] == '@' && v[j] == '.'
    && AllAddressChars(v[..i]) && AllAddressChars(v[i + 1..j]) && AllAddressChars(v[j + 1..])
  }

  /** The email pattern matches when some split of the value fits it. */
  ghost predicate MatchesEmailPattern(v: string) {
    exists i, j :: EmailSplit(v, i, j)
  }

  /** The position of the first c in s, or |s| when there is none. */
  function FirstIndexOf(s: string, c: char): (r: nat)
    ensures r <= |s|
    ensures r < |s| ==> s[r] == c
    ensures forall k :: 0 <= k < r ==> s[k] != c
  {
    if s == [] then 0
    else if s[0] == c then 0
    else 1 + FirstIndexOf(s[1..], c)
  }

  /** A domain part has a "." with at least one character on either side. */
  predicate HasInnerDot(d: string) {
    2 < |d| && '.' in d[1..|d| - 1]
  }

  /** The email test, computed: the first "@" must have a non-empty run of
      [^\s@] before it, and the rest must be such a run with a "." inside. */
  function IsValidEmail(v: string): bool {
    var at := FirstIndexOf(v, '@');
    0 < at < |v| && AllAddressChars(v[..at])
    && AllAddressChars(v[at + 1..]) && HasInnerDot(v[at + 1..])
  }

  /** Every slice of a string of [^\s@] characters is one too. */
  lemma AllAddressCharsSlice(s: string, lo: int, hi: int)
    requires AllAddressChars(s) && 0 <= lo <= hi <= |s|
    ensures AllAddressChars(s[lo..hi])
  {
  }

  /** Every string the computed email test accepts matches the pattern: the
      split points are the first "@" and a "." inside the domain. */
  lemma EmailTestSound(v: string)
    requires IsValidEmail(v)
    ensures MatchesEmailPattern(v)
  {
    var at := FirstIndexOf(v, '@');
    var d := v[at + 1..];
    var k :| 0 <= k < |d| - 2 && d[1..|d| - 1][k] == '.';
    var j := at + 2 + k;
    AllAddressCharsSlice(d, 0, k + 1);
    AllAddressCharsSlice(d, k + 2, |d|);
    assert v[at + 1..j] == d[..k + 1];
    assert v[j + 1..] == d[k + 2..];
    assert EmailSplit(v, at, j);
  }

  /** An "@" preceded only by [^\s@] characters is the first "@". */
  lemma FirstAt(v: string, i: nat)
    requires i < |v| && v[i] == '@' && AllAddressChars(v[..i])
    ensures FirstIndexOf(v, '@') == i
  {
  }

  /** Gluing two runs of [^\s@] characters around a "." gives a domain part. */
  lemma DomainJoin(a: string, b: string)
    requires 0 < |a| && 0 < |b| && AllAddressChars(a) && AllAddressChars(b)
    ensures AllAddressChars(a + ['.'] + b) && HasInnerDot(a + ['.'] + b)
  {
    var d := a + ['.'] + b;
    forall m | 0 <= m < |d|
      ensures IsAddressChar(d[m])
    {
      if m < |a| {
        assert d[m] == a[m];
      } else if m > |a| {
        assert d[m] == b[m - |a| - 1];
      }
    }
    assert d[1..|d| - 1][|a| - 1] == '.';
  }

  /** Every split that fits the pattern is found by the computed test: the
      pattern's "@" is the first one, and its "." lies inside the domain. */
  lemma EmailTestComplete(v: string, i: int, j: int)
    requires EmailSplit(v, i, j)
    ensures IsValidEmail(v)
  {
    FirstAt(v, i);
    var a, b := v[i + 1..j], v[j + 1..];
    assert v[i + 1..] == a + ['.'] + b;
    DomainJoin(a, b);
  }

  /** The computed email test accepts exactly the strings the pattern matches. */
  lemma EmailTestMatchesPattern(v: string)
    ensures IsValidEmail(v) <==> MatchesEmailPattern(v)
  {
    if IsValidEmail(v) {
      EmailTestSound(v);
    }
    if MatchesEmailPattern(v) {
      var i, j :| EmailSplit(v, i, j);
      EmailTestComplete(v, i, j);
    }
  }

  /** A valid email address holds exactly one "@", the one that splits it. */
  lemma ValidEmailHasOneAt(v: string)
    requires IsValidEmail(v)
    ensures forall k :: 0 <= k < |v| && v[k] == '@' ==> k == FirstIndexOf(v, '@')
  {
  }

  predicate IsAsciiDigit(c: char) {
    '0' <= c <= '9'
  }

  /** The class [0-9\s\-\(\)]. */
  predicate IsPhoneChar(c: char) {
    IsAsciiDigit(c) || IsWhitespace(c) || c == '-' || c == '(' || c == ')'
  }

  predicate AllPhoneChars(s: string) {
    forall k :: 0 <= k < |s| ==> IsPhoneChar(s[k])
  }

  /** The phone pattern read as its two alternatives: the optional "+" left
      out, or taken; either way one or more characters of the class follow. */
  ghost predicate MatchesPhonePattern(v: string) {
    (0 < |v| && AllPhoneChars(v))
    || (1 < |v| && v[0] == '+' && AllPhoneChars(v[1..]))
  }

  /** The phone test, computed: drop one leading "+" if present, then demand
      a non-empty run of phone characters. A "+" anywhere else, or a "+"
      alone, is refused. */
  function IsValidPhone(v: string): (ok: bool)
    ensures ok <==> MatchesPhonePattern(v)
    ensures ok ==> forall k :: 0 < k < |v| ==> v[k] != '+'
    ensures v == "+" ==> !ok
  {
    var rest := if 0 < |v| && v[0] == '+' then v[1..] else v;
    assert 0 < |v| && v[0] == '+' ==> !AllPhoneChars(v);
    assert forall k :: 0 < k < |v| && 0 < |v| && v[0] == '+' ==> v[k] == rest[k - 1];
    0 < |rest| && AllPhoneChars(rest)
  }
}
