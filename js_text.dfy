/**
 * The part of JavaScript's `String.prototype.trim` that the comment guard of
 * `PostCard` relies on: a draft counts as empty when trimming leaves nothing.
 * Whitespace is ECMAScript's WhiteSpace and LineTerminator code points.
 */
module JsText {

  /** ECMAScript WhiteSpace (TAB, VT, FF, ZWNBSP and every Zs code point) or LineTerminator (LF, CR, LS, PS). */
  predicate IsJsWhiteSpace(c: char) {
    || c == '\t' || c == '\n' || c == '\U{000B}' || c == '\U{000C}' || c == '\r'
    || c == ' ' || c == '\U{00A0}' || c == '\U{1680}'
    || ('\U{2000}' <= c <= '\U{200A}')
    || c == '\U{2028}' || c == '\U{2029}' || c == '\U{202F}' || c == '\U{205F}'
    || c == '\U{3000}' || c == '\U{FEFF}'
  }

  /** Drops leading whitespace: the result is the longest suffix of `s` that does not start with whitespace. */
  function TrimStart(s: string): (r: string)
    ensures |r| <= |s| && r == s[|s| - |r|..]
    ensures forall i :: 0 <= i < |s| - |r| ==> IsJsWhiteSpace(s[i])
    ensures r != [] ==> !IsJsWhiteSpace(r[0])
  {
    if s != [] && IsJsWhiteSpace(s[0]) then TrimStart(s[1..]) else s
  }

  /** Drops trailing whitespace: the result is the longest prefix of `s` that does not end with whitespace. */
  function TrimEnd(s: string): (r: string)
    ensures |r| <= |s| && r == s[..|r|]
    ensures forall i :: |r| <= i < |s| ==> IsJsWhiteSpace(s[i])
    ensures r != [] ==> !IsJsWhiteSpace(r[|r| - 1])
  {
    if s != [] && IsJsWhiteSpace(s[|s| - 1]) then TrimEnd(s[..|s| - 1]) else s
  }

  /** `r` is `s` with the first `k` characters and everything after `k + |r|` removed, all of them whitespace. */
  predicate IsTrimmedAt(s: string, r: string, k: int) {
    && 0 <= k <= |s| - |r| && r == s[k..k + |r|]
    && (forall i :: 0 <= i < k ==> IsJsWhiteSpace(s[i]))
    && (forall i :: k + |r| <= i < |s| ==> IsJsWhiteSpace(s[i]))
  }

  /**
   * `s.trim()`: the piece of `s` left once the whitespace at both ends is
   * dropped; neither end of a non-empty result is whitespace.
   */
  function Trim(s: string): (r: string)
    ensures exists k :: IsTrimmedAt(s, r, k)
    ensures r != [] ==> !IsJsWhiteSpace(r[0]) && !IsJsWhiteSpace(r[|r| - 1])
  {
    var t := TrimStart(s);
    var r := TrimEnd(t);
    var k := |s| - |t|;
    assert forall i :: k <= i < |s| ==> s[i] == t[i - k];
    assert IsTrimmedAt(s, r, k);
    r
  }

  /** `!s.trim()` holds exactly when every character of `s` is whitespace (in particular for ""). */
  lemma TrimEmptyIffBlank(s: string)
    ensures Trim(s) == "" <==> forall i :: 0 <= i < |s| ==> IsJsWhiteSpace(s[i])
  {
    // Both directions follow from the contracts of TrimStart and TrimEnd.
  }
}
