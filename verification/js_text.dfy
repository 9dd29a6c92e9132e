/** The JavaScript string operations the page's display logic uses:
    `trim()`, `toLowerCase()` on the ASCII letters, and the truthiness behind
    `a || b`. */
module JsText {
  import opened Wrappers

  /** ECMAScript WhiteSpace and LineTerminator code points: the characters
      `String.prototype.trim` removes (TAB, LF, VT, FF, CR, the space
      separators, LS, PS and the byte-order mark). */
  predicate IsWhiteSpace(c: char)
  {
    || ('\t' <= c <= '\r')
    || c == ' '
    || c == '\U{a0}'
    || c == '\U{1680}'
    || ('\U{2000}' <= c <= '\U{200a}')
    || c == '\U{2028}'
    || c == '\U{2029}'
    || c == '\U{202f}'
    || c == '\U{205f}'
    || c == '\U{3000}'
    || c == '\U{feff}'
  }

  /** Every character of `s` is whitespace (vacuously so for ""). */
  predicate AllWhiteSpace(s: string)
  {
    forall i :: 0 <= i < |s| ==> IsWhiteSpace(s[i])
  }

  /** `s.trimStart()`. */
  function TrimStart(s: string): (r: string)
    decreases |s|
    ensures |r| <= |s| && r == s[|s| - |r|..]
    ensures forall i :: 0 <= i < |s| - |r| ==> IsWhiteSpace(s[i])
    ensures |r| > 0 ==> !IsWhiteSpace(r[0])
  {
    if |s| > 0 && IsWhiteSpace(s[0]) then TrimStart(s[1..]) else s
  }

  /** `s.trimEnd()`. */
  function TrimEnd(s: string): (r: string)
    decreases |s|
    ensures |r| <= |s| && r == s[..|r|]
    ensures forall i :: |r| <= i < |s| ==> IsWhiteSpace(s[i])
    ensures |r| > 0 ==> !IsWhiteSpace(r[|r| - 1])
  {
    if |s| > 0 && IsWhiteSpace(s[|s| - 1]) then TrimEnd(s[..|s| - 1]) else s
  }

  /** `s.trim()`: `s` without its leading and trailing whitespace. */
  function Trim(s: string): (r: string)
    ensures |r| > 0 ==> !IsWhiteSpace(r[0]) && !IsWhiteSpace(r[|r| - 1])
  {
    TrimEnd(TrimStart(s))
  }

  /** Trimming leaves nothing exactly when the text is all whitespace. */
  lemma TrimEmptyIff(s: string)
    ensures Trim(s) == "" <==> AllWhiteSpace(s)
  {
    var a := TrimStart(s);
    if a != "" {
      assert a[0] == s[|s| - |a|];
    }
  }

  /** `toLowerCase()` on one character; only A-Z change. */
  function LowerChar(c: char): char
  {
    if 'A' <= c <= 'Z' then (c as int + 32) as char else c
  }

  /** `s.toLowerCase()`, character by character. */
  function ToLower(s: string): (r: string)
    ensures |r| == |s|
    ensures forall i :: 0 <= i < |s| ==> r[i] == LowerChar(s[i])
  {
    if |s| == 0 then "" else [LowerChar(s[0])] + ToLower(s[1..])
  }

  /** `a` and `b` spell the same word, ignoring the case of ASCII letters. */
  predicate EqualsIgnoringCase(a: string, b: string)
  {
    |a| == |b| && forall i :: 0 <= i < |a| ==> LowerChar(a[i]) == LowerChar(b[i])
  }

  /** A word with no upper-case letter. */
  predicate IsLowerCase(w: string)
  {
    forall i :: 0 <= i < |w| ==> !('A' <= w[i] <= 'Z')
  }

  /** Comparing `s.toLowerCase()` with a lower-case word is a
      case-insensitive comparison. */
  lemma ToLowerEqualsIff(s: string, w: string)
    requires IsLowerCase(w)
    ensures ToLower(s) == w <==> EqualsIgnoringCase(s, w)
  {
    if EqualsIgnoringCase(s, w) {
      forall i | 0 <= i < |s|
        ensures ToLower(s)[i] == w[i]
      {
        assert LowerChar(w[i]) == w[i];
      }
    }
  }

  /** Two spellings of a word in different case lower-case to the same text. */
  lemma ToLowerIgnoresCase(a: string, b: string)
    requires EqualsIgnoringCase(a, b)
    ensures ToLower(a) == ToLower(b)
  {
    assert forall i :: 0 <= i < |a| ==> ToLower(a)[i] == ToLower(b)[i];
  }

  /** JavaScript truthiness of an optional string: present and not "". */
  predicate Truthy(s: Option<string>)
  {
    s.Some? && s.value != ""
  }

  /** `a || b` for an optional string `a`. */
  function OrElse(a: Option<string>, b: string): (r: string)
    ensures r == b || (a.Some? && r == a.value)
    ensures b != "" ==> r != ""
    ensures Truthy(a) ==> r == a.value
  {
    if Truthy(a) then a.value else b
  }
}
