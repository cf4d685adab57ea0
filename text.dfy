/**
 * The JavaScript string built-ins the application relies on:
 * `startsWith`, `includes`, `toLowerCase` and `trim`.
 */
module Text {

  /** `s.startsWith(prefix)` */
  predicate StartsWith(s: string, prefix: string)
    ensures StartsWith(s, prefix) <==> |prefix| <= |s| && forall i :: 0 <= i < |prefix| ==> s[i] == prefix[i]
  {
    |prefix| <= |s| && s[..|prefix|] == prefix
  }

  /** `s.includes(q)`: `q` occurs somewhere in `s` (the empty string occurs everywhere). */
  predicate Includes(s: string, q: string)
    ensures q == [] ==> Includes(s, q)
    ensures Includes(s, q) ==> |q| <= |s|
    decreases |s|
  {
    StartsWith(s, q) || (s != [] && Includes(s[1..], q))
  }

  /** `Includes` agrees with the positional definition of a substring. */
  lemma {:induction false} IncludesIff(s: string, q: string)
    ensures Includes(s, q) <==> exists i :: 0 <= i <= |s| && StartsWith(s[i..], q)
    decreases |s|
  {
    assert s[0..] == s;
    if s != [] {
      IncludesIff(s[1..], q);
      if Includes(s, q) && !StartsWith(s, q) {
        var i :| 0 <= i <= |s[1..]| && StartsWith(s[1..][i..], q);
        assert s[1..][i..] == s[i + 1..];
      }
      if i :| 0 <= i <= |s| && StartsWith(s[i..], q) {
        if i > 0 {
          assert s[1..][i - 1..] == s[i..];
        }
      }
    }
  }

  /** A string that lacks one of `q`'s characters does not contain `q`. */
  lemma AbsentCharExcludes(s: string, q: string, k: nat)
    requires k < |q| && q[k] !in s
    ensures !Includes(s, q)
  {
    forall i | 0 <= i <= |s|
      ensures !StartsWith(s[i..], q)
    {
      if i + |q| <= |s| {
        assert s[i..][..|q|][k] == s[i + k];
      }
    }
    IncludesIff(s, q);
  }

  /**
   * `toLowerCase` on one character. The model maps the upper-case letters of
   * ASCII and of the Latin-1 supplement (the accented capitals of Portuguese);
   * every other character is left as it is.
   */
  function LowerChar(c: char): (r: char)
    ensures !IsUpper(r)
    ensures IsUpper(c) ==> r as int == c as int + 32
    ensures !IsUpper(c) ==> r == c
  {
    if IsUpper(c) then (c as int + 32) as char else c
  }

  predicate IsUpper(c: char) {
    ('A' <= c <= 'Z') || ('\U{00C0}' <= c <= '\U{00DE}' && c != '\U{00D7}')
  }

  /** `s.toLowerCase()` */
  function Lower(s: string): (r: string)
    ensures |r| == |s|
    ensures forall i :: 0 <= i < |r| ==> !IsUpper(r[i])
    ensures forall i :: 0 <= i < |s| && !IsUpper(s[i]) ==> r[i] == s[i]
    ensures forall i :: 0 <= i < |s| && IsUpper(s[i]) ==> r[i] as int == s[i] as int + 32
  {
    seq(|s|, i requires 0 <= i < |s| => LowerChar(s[i]))
  }

  /** Lower-casing never produces a space, so a string without spaces stays without. */
  lemma LowerAddsNoSpace(s: string)
    requires ' ' !in s
    ensures ' ' !in Lower(s)
  {
    forall i | 0 <= i < |s|
      ensures Lower(s)[i] != ' '
    {
      assert s[i] != ' ';
    }
  }

  /** The characters `String.prototype.trim` removes: WhiteSpace and LineTerminator of ECMAScript. */
  predicate IsWhitespace(c: char) {
    || c == '\t' || c == '\n' || c == '\U{000B}' || c == '\U{000C}' || c == '\r'
    || c == ' ' || c == '\U{00A0}' || c == '\U{1680}'
    || ('\U{2000}' <= c <= '\U{200A}')
    || c == '\U{2028}' || c == '\U{2029}' || c == '\U{202F}' || c == '\U{205F}'
    || c == '\U{3000}' || c == '\U{FEFF}'
  }

  /** Drops the leading whitespace: the result is the longest suffix that does not start with whitespace. */
  function TrimStart(s: string): (r: string)
    ensures |r| <= |s| && r == s[|s| - |r|..]
    ensures forall i :: 0 <= i < |s| - |r| ==> IsWhitespace(s[i])
    ensures r != [] ==> !IsWhitespace(r[0])
  {
    if s != [] && IsWhitespace(s[0]) then TrimStart(s[1..]) else s
  }

  /** Drops the trailing whitespace: the result is the longest prefix that does not end with whitespace. */
  function TrimEnd(s: string): (r: string)
    ensures |r| <= |s| && r == s[..|r|]
    ensures forall i :: |r| <= i < |s| ==> IsWhitespace(s[i])
    ensures r != [] ==> !IsWhitespace(r[|r| - 1])
  {
    if s != [] && IsWhitespace(s[|s| - 1]) then TrimEnd(s[..|s| - 1]) else s
  }

  /** `s.trim()` */
  function Trim(s: string): (r: string)
    ensures |r| <= |s|
    ensures r != [] ==> !IsWhitespace(r[0]) && !IsWhitespace(r[|r| - 1])
    ensures r == [] <==> forall i :: 0 <= i < |s| ==> IsWhitespace(s[i])
  {
    TrimEnd(TrimStart(s))
  }
}
