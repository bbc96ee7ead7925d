/**
 * ECMAScript's `String.prototype.trim` and the truthiness test built on it.
 * Both the endpoint and the page decide whether feedback was "given" by
 * asking whether the trimmed string is non-empty.
 */
module Text {

  /**
   * The characters `trim` removes: the WhiteSpace and LineTerminator code
   * points of ECMA-262 (sections 12.2 and 12.3, "White Space" and "Line
   * Terminators"), that is TAB, VT, FF, SP, NBSP, ZWNBSP, every other
   * space separator (category Zs), LF, CR, LS and PS.
   */
  predicate IsWhitespace(c: char) {
    || c == '\t' || c == '\n' || c == '\U{000B}' || c == '\U{000C}' || c == '\r'
    || c == ' ' || c == '\U{00A0}' || c == '\U{1680}'
    || ('\U{2000}' <= c <= '\U{200A}')
    || c == '\U{2028}' || c == '\U{2029}' || c == '\U{202F}' || c == '\U{205F}'
    || c == '\U{3000}' || c == '\U{FEFF}'
  }

  /** `s` with its leading whitespace removed. */
  function TrimStart(s: string): (r: string)
    ensures |r| <= |s| && r == s[|s| - |r|..]
    ensures forall i :: 0 <= i < |s| - |r| ==> IsWhitespace(s[i])
    ensures r == [] || !IsWhitespace(r[0])
  {
    if s != [] && IsWhitespace(s[0]) then
      var r := TrimStart(s[1..]);
      assert forall i :: 1 <= i < |s| ==> s[i] == s[1..][i - 1];
      r
    else s
  }

  /** `s` with its trailing whitespace removed. */
  function TrimEnd(s: string): (r: string)
    ensures |r| <= |s| && r == s[..|r|]
    ensures forall i :: |r| <= i < |s| ==> IsWhitespace(s[i])
    ensures r == [] || !IsWhitespace(r[|r| - 1])
  {
    if s != [] && IsWhitespace(s[|s| - 1]) then TrimEnd(s[..|s| - 1]) else s
  }

  /**
   * `s.trim()`: the longest infix of `s` that neither starts nor ends with
   * whitespace; it is empty exactly when `s` is whitespace only.
   */
  function Trim(s: string): (r: string)
    ensures |r| <= |s|
    ensures r == [] || (!IsWhitespace(r[0]) && !IsWhitespace(r[|r| - 1]))
    ensures r == [] <==> forall i :: 0 <= i < |s| ==> IsWhitespace(s[i])
    ensures exists a, b :: 0 <= a <= b <= |s| && r == s[a..b] && WhitespaceOutside(s, a, b)
  {
    TrimIsInfix(s);
    TrimEnd(TrimStart(s))
  }

  /** Trimming both ends keeps one infix and drops only whitespace around it. */
  lemma TrimIsInfix(s: string)
    ensures exists a, b :: 0 <= a <= b <= |s| && TrimEnd(TrimStart(s)) == s[a..b] && WhitespaceOutside(s, a, b)
  {
    var t := TrimStart(s);
    TrimEndOfSuffix(s, t, |s| - |t|);
  }

  /** Trimming the end of the suffix `t == s[a..]`, whose every character
      before `a` is whitespace, leaves an infix with whitespace around it. */
  lemma TrimEndOfSuffix(s: string, t: string, a: nat)
    requires a <= |s| && t == s[a..]
    requires forall i :: 0 <= i < a ==> IsWhitespace(s[i])
    ensures exists a', b :: 0 <= a' <= b <= |s| && TrimEnd(t) == s[a'..b] && WhitespaceOutside(s, a', b)
  {
    var r := TrimEnd(t);
    InfixOfSuffix(s, t, r, a);
    assert WhitespaceOutside(s, a, a + |r|);
  }

  /** A prefix `r` of the suffix `t == s[a..]` is the infix `s[a..a + |r|]`,
      and whitespace after `r` in `t` is whitespace after it in `s`. */
  lemma InfixOfSuffix(s: string, t: string, r: string, a: nat)
    requires a <= |s| && t == s[a..] && |r| <= |t| && r == t[..|r|]
    requires forall i :: |r| <= i < |t| ==> IsWhitespace(t[i])
    ensures r == s[a..a + |r|]
    ensures forall i :: a + |r| <= i < |s| ==> IsWhitespace(s[i])
  {
    forall i | a + |r| <= i < |s|
      ensures IsWhitespace(s[i])
    {
      assert s[i] == t[i - a];
    }
  }

  /** Every character of `s` before `a` and from `b` on is whitespace. */
  ghost predicate WhitespaceOutside(s: string, a: nat, b: nat)
    requires a <= b <= |s|
  {
    && (forall i :: 0 <= i < a ==> IsWhitespace(s[i]))
    && (forall i :: b <= i < |s| ==> IsWhitespace(s[i]))
  }

  /** The JavaScript condition `s.trim()`, read as a boolean: a non-empty
      string is truthy, the empty string is not. */
  predicate HasText(s: string) {
    Trim(s) != ""
  }

  /** A string has text exactly when some character of it is not whitespace. */
  lemma HasTextIffNonWhitespace(s: string)
    ensures HasText(s) <==> exists i :: 0 <= i < |s| && !IsWhitespace(s[i])
  {
  }
}
