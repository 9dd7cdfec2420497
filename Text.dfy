/**
 Whitespace stripping as the server applies it to every decoded command
 (Python's `str.strip()` with no argument).
 */
module Text {

  /** The characters Python's `str.isspace` accepts: the ASCII controls
      TAB, LF, VT, FF, CR, the separators U+001C..U+001F, SPACE, NEL, NBSP
      and the Unicode space separators. */
  predicate IsWhitespace(c: char)
  {
    ('\t' <= c <= '\r') || ('\U{1C}' <= c <= ' ')
    || c == '\U{85}' || c == '\U{A0}' || c == '\U{1680}'
    || ('\U{2000}' <= c <= '\U{200A}')
    || c == '\U{2028}' || c == '\U{2029}' || c == '\U{202F}'
    || c == '\U{205F}' || c == '\U{3000}'
  }

  ghost predicate AllWhitespace(s: string)
  {
    forall k :: 0 <= k < |s| ==> IsWhitespace(s[k])
  }

  /** The length of the longest all-whitespace prefix of `s`. */
  function LeadingWhitespace(s: string): (n: nat)
    ensures n <= |s|
    ensures forall k :: 0 <= k < n ==> IsWhitespace(s[k])
    ensures n < |s| ==> !IsWhitespace(s[n])
  {
    if s != [] && IsWhitespace(s[0]) then 1 + LeadingWhitespace(s[1..]) else 0
  }

  /** The length of the longest all-whitespace suffix of `s`. */
  function TrailingWhitespace(s: string): (n: nat)
    ensures n <= |s|
    ensures forall k :: |s| - n <= k < |s| ==> IsWhitespace(s[k])
    ensures n < |s| ==> !IsWhitespace(s[|s| - 1 - n])
  {
    if s != [] && IsWhitespace(s[|s| - 1]) then 1 + TrailingWhitespace(s[..|s| - 1]) else 0
  }

  /** `s` without its leading and trailing whitespace. */
  function Strip(s: string): (r: string)
    ensures |r| <= |s|
    ensures r != [] ==> !IsWhitespace(r[0]) && !IsWhitespace(r[|r| - 1])
    ensures r == [] <==> AllWhitespace(s)
  {
    var i := LeadingWhitespace(s);
    var rest := s[i..];
    rest[..|rest| - TrailingWhitespace(rest)]
  }

  /** Strip removes exactly a whitespace prefix and a whitespace suffix: once
      `s` is split as whitespace, a core with non-whitespace ends, and
      whitespace, Strip returns that core. */
  lemma StripCharacterization(s: string, i: nat, j: nat)
    requires i <= j <= |s|
    requires forall k :: 0 <= k < i ==> IsWhitespace(s[k])
    requires forall k :: j <= k < |s| ==> IsWhitespace(s[k])
    requires i < j ==> !IsWhitespace(s[i]) && !IsWhitespace(s[j - 1])
    ensures Strip(s) == s[i..j]
  {
    var n := LeadingWhitespace(s);
    if i == j {
      assert AllWhitespace(s) by {
        forall k | 0 <= k < |s| ensures IsWhitespace(s[k]) {
          if k >= i { assert j <= k; }
        }
      }
    } else {
      var rest := s[i..];
      assert n == i;
      assert TrailingWhitespace(rest) == |s| - j;
    }
  }

  /** A command padded with whitespace on either side strips back to itself. */
  lemma StripPadded(before: string, core: string, after: string)
    requires AllWhitespace(before) && AllWhitespace(after)
    requires core != [] ==> !IsWhitespace(core[0]) && !IsWhitespace(core[|core| - 1])
    ensures Strip(before + core + after) == core
  {
    var s := before + core + after;
    var i, j := |before|, |before| + |core|;
    assert forall k :: 0 <= k < i ==> s[k] == before[k];
    assert forall k :: j <= k < |s| ==> s[k] == after[k - j];
    assert i < j ==> s[i] == core[0] && s[j - 1] == core[|core| - 1];
    StripCharacterization(s, i, j);
    assert s[i..j] == core;
  }

  /** Stripping twice is stripping once. */
  lemma StripIdempotent(s: string)
    ensures Strip(Strip(s)) == Strip(s)
  {
    var r := Strip(s);
    StripCharacterization(r, 0, |r|);
  }
}
