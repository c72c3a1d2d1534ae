/**
 * The parts of JavaScript's String.prototype that the middleware relies on:
 * `startsWith` and `trim`, over strings as sequences of characters.
 */
module JsString {

  /** The characters `trim` removes: ECMAScript's WhiteSpace and LineTerminator code points. */
  predicate IsWhitespace(c: char)
    ensures IsWhitespace(c) ==> c as int < 0x1_0000
    ensures c as int < 0x80 ==> (IsWhitespace(c) <==> c in "\t\n\U{B}\U{C}\r ")
  {
    || c == '\t' || c == '\U{B}' || c == '\U{C}' || c == ' ' || c == '\U{A0}' || c == '\U{FEFF}'
    || c == '\U{1680}' || ('\U{2000}' <= c <= '\U{200A}') || c == '\U{202F}' || c == '\U{205F}'
    || c == '\U{3000}'
    || c == '\n' || c == '\r' || c == '\U{2028}' || c == '\U{2029}'
  }

  /** `s.startsWith(prefix)`: the first |prefix| characters of s are exactly prefix. */
  predicate StartsWith(s: string, prefix: string)
    ensures StartsWith(s, prefix) <==> |prefix| <= |s| && forall k :: 0 <= k < |prefix| ==> s[k] == prefix[k]
  {
    |prefix| <= |s| && s[..|prefix|] == prefix
  }

  /** The number of whitespace characters at the start of s. */
  function LeadingWhitespace(s: string): (n: nat)
    ensures n <= |s|
    ensures forall k :: 0 <= k < n ==> IsWhitespace(s[k])
    ensures n < |s| ==> !IsWhitespace(s[n])
  {
    if |s| > 0 && IsWhitespace(s[0]) then 1 + LeadingWhitespace(s[1..]) else 0
  }

  /** The number of whitespace characters at the end of s. */
  function TrailingWhitespace(s: string): (n: nat)
    ensures n <= |s|
    ensures forall k :: |s| - n <= k < |s| ==> IsWhitespace(s[k])
    ensures n < |s| ==> !IsWhitespace(s[|s| - 1 - n])
  {
    if |s| > 0 && IsWhitespace(s[|s| - 1]) then 1 + TrailingWhitespace(s[..|s| - 1]) else 0
  }

  /**
   * s[i..j] is s with whitespace around it: everything before i and from j on
   * is whitespace, and a non-empty s[i..j] neither starts nor ends with whitespace.
   */
  ghost predicate TrimSplit(s: string, i: int, j: int) {
    && 0 <= i <= j <= |s|
    && (forall k :: 0 <= k < i ==> IsWhitespace(s[k]))
    && (forall k :: j <= k < |s| ==> IsWhitespace(s[k]))
    && (i < j ==> !IsWhitespace(s[i]) && !IsWhitespace(s[j - 1]))
  }

  /** `s.trim()`: s without its leading and trailing whitespace. */
  function Trim(s: string): (r: string)
    ensures r == [] || (!IsWhitespace(r[0]) && !IsWhitespace(r[|r| - 1]))
    ensures TrimSplit(s, LeadingWhitespace(s), LeadingWhitespace(s) + |r|)
    ensures r == s[LeadingWhitespace(s)..LeadingWhitespace(s) + |r|]
  {
    var rest := s[LeadingWhitespace(s)..];
    rest[..|rest| - TrailingWhitespace(rest)]
  }

  /** Any way of splitting s into whitespace, a core without surrounding whitespace, and whitespace finds Trim(s). */
  lemma TrimUnique(s: string, i: int, j: int)
    requires TrimSplit(s, i, j)
    ensures Trim(s) == s[i..j]
  {
  }

  /** Trimming twice is trimming once. */
  lemma TrimIdempotent(s: string)
    ensures Trim(Trim(s)) == Trim(s)
  {
  }

  /** Whitespace added around a string does not change what trim returns. */
  lemma TrimIgnoresPadding(w1: string, s: string, w2: string)
    requires forall k :: 0 <= k < |w1| ==> IsWhitespace(w1[k])
    requires forall k :: 0 <= k < |w2| ==> IsWhitespace(w2[k])
    ensures Trim(w1 + s + w2) == Trim(s)
  {
    var t := w1 + s + w2;
    var lead, r := LeadingWhitespace(s), Trim(s);
    var i, j := |w1| + lead, |w1| + lead + |r|;
    assert t[i..j] == r by {
      assert t[i..j] == s[lead..lead + |r|];
    }
    forall k | 0 <= k < i ensures IsWhitespace(t[k]) {
      if k >= |w1| { assert t[k] == s[k - |w1|]; }
    }
    forall k | j <= k < |t| ensures IsWhitespace(t[k]) {
      if k < |w1| + |s| { assert t[k] == s[k - |w1|]; }
      else { assert t[k] == w2[k - |w1| - |s|]; }
    }
    if i < j {
      assert t[i] == s[lead];
      assert t[j - 1] == s[lead + |r| - 1];
    }
    TrimUnique(t, i, j);
  }
}
