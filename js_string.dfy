/**
 * The two JavaScript string built-ins the function-node factory applies to a
 * lexer token before looking it up: `String.prototype.trim` and
 * `String.prototype.toUpperCase`.
 */
module JsString {

  /** ECMAScript WhiteSpace and LineTerminator code points, the set `trim` strips. */
  predicate IsWhitespace(c: char) {
    || c == '\t' || c == '\n' || c == '\U{000B}' || c == '\U{000C}' || c == '\r' || c == ' '
    || c == '\U{00A0}' || c == '\U{1680}' || ('\U{2000}' <= c <= '\U{200A}')
    || c == '\U{2028}' || c == '\U{2029}' || c == '\U{202F}' || c == '\U{205F}'
    || c == '\U{3000}' || c == '\U{FEFF}'
  }

  /** Number of whitespace characters at the front of `s`. */
  function LeadingSpace(s: string): (n: nat)
    ensures n <= |s|
    ensures forall k :: 0 <= k < n ==> IsWhitespace(s[k])
    ensures n < |s| ==> !IsWhitespace(s[n])
  {
    if |s| > 0 && IsWhitespace(s[0]) then 1 + LeadingSpace(s[1..]) else 0
  }

  /** Number of whitespace characters at the back of `s`. */
  function TrailingSpace(s: string): (n: nat)
    ensures n <= |s|
    ensures forall k :: |s| - n <= k < |s| ==> IsWhitespace(s[k])
    ensures n < |s| ==> !IsWhitespace(s[|s| - 1 - n])
  {
    if |s| > 0 && IsWhitespace(s[|s| - 1]) then 1 + TrailingSpace(s[..|s| - 1]) else 0
  }

  /**
   * `s.trim()`: `s` without its leading and trailing whitespace. The result is
   * the infix of `s` starting after the leading whitespace, everything after
   * it is whitespace, and it neither starts nor ends with whitespace.
   */
  function Trim(s: string): (r: string)
    ensures LeadingSpace(s) + |r| <= |s|
    ensures r == s[LeadingSpace(s)..LeadingSpace(s) + |r|]
    ensures forall k :: LeadingSpace(s) + |r| <= k < |s| ==> IsWhitespace(s[k])
    ensures r != [] ==> !IsWhitespace(r[0]) && !IsWhitespace(r[|r| - 1])
  {
    var front := s[LeadingSpace(s)..];
    front[..|front| - TrailingSpace(front)]
  }

  /** Whitespace around a string with non-blank ends is exactly what `Trim` removes. */
  lemma {:induction false} TrimSurrounded(pre: string, t: string, post: string)
    requires forall k :: 0 <= k < |pre| ==> IsWhitespace(pre[k])
    requires forall k :: 0 <= k < |post| ==> IsWhitespace(post[k])
    requires t != [] ==> !IsWhitespace(t[0]) && !IsWhitespace(t[|t| - 1])
    ensures Trim(pre + t + post) == t
  {
    var s := pre + t + post;
    if t == [] {
      assert s == (pre + post) + [];
      LeadingAfterBlank(pre + post, []);
    } else {
      assert s == pre + (t + post);
      LeadingAfterBlank(pre, t + post);
      assert s[|pre|..] == t + post;
      TrailingBeforeBlank(t, post);
      assert (t + post)[..|t|] == t;
    }
  }

  /** Blank characters behind a text that does not end blank are the trailing space. */
  lemma {:induction false} TrailingBeforeBlank(rest: string, post: string)
    requires forall k :: 0 <= k < |post| ==> IsWhitespace(post[k])
    ensures TrailingSpace(rest + post) >= |post|
    ensures rest != [] && !IsWhitespace(rest[|rest| - 1]) ==> TrailingSpace(rest + post) == |post|
  {
    if post != [] {
      assert (rest + post)[..|rest + post| - 1] == rest + post[..|post| - 1];
      TrailingBeforeBlank(rest, post[..|post| - 1]);
    } else {
      assert rest + post == rest;
    }
  }

  /** Blank characters in front of a text that does not start blank are the leading space. */
  lemma {:induction false} LeadingAfterBlank(pre: string, rest: string)
    requires forall k :: 0 <= k < |pre| ==> IsWhitespace(pre[k])
    ensures LeadingSpace(pre + rest) >= |pre|
    ensures rest != [] && !IsWhitespace(rest[0]) ==> LeadingSpace(pre + rest) == |pre|
  {
    if pre != [] {
      assert (pre + rest)[1..] == pre[1..] + rest;
      LeadingAfterBlank(pre[1..], rest);
    }
  }

  /** `Trim` leaves a trimmed string unchanged. */
  lemma TrimIdempotent(s: string)
    ensures Trim(Trim(s)) == Trim(s)
  {
    TrimSurrounded([], Trim(s), []);
    assert [] + Trim(s) + [] == Trim(s);
  }

  /** A character outside the Basic Multilingual Plane, two UTF-16 code units long. */
  predicate IsAstral(c: char) {
    c as int >= 0x1_0000
  }

  /** ASCII upper-casing of one character. */
  function UpperChar(c: char): char {
    if 'a' <= c <= 'z' then (c as int - 32) as char else c
  }

  /** `s.toUpperCase()`, restricted to ASCII letters: same length, each character upper-cased. */
  function ToUpper(s: string): (r: string)
    ensures |r| == |s|
    ensures forall k :: 0 <= k < |s| ==> r[k] == UpperChar(s[k])
  {
    if s == [] then [] else [UpperChar(s[0])] + ToUpper(s[1..])
  }

  /** A string without lower-case ASCII letters is its own upper case. */
  lemma ToUpperUntouched(s: string)
    requires forall k :: 0 <= k < |s| ==> !('a' <= s[k] <= 'z')
    ensures ToUpper(s) == s
  {
    var u := ToUpper(s);
    forall k | 0 <= k < |s| ensures u[k] == s[k] {
      assert u[k] == UpperChar(s[k]);
    }
  }

  /** Upper-casing twice is upper-casing once. */
  lemma ToUpperIdempotent(s: string)
    ensures ToUpper(ToUpper(s)) == ToUpper(s)
  {
  }
}
