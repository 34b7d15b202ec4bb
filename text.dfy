// The .NET string and char operations the modelled code relies on:
// char.IsWhiteSpace, string.IsNullOrWhiteSpace, IndexOf, Contains, Trim,
// and the invariant-culture case mappings (ASCII only).
module Text {

  /** char.IsWhiteSpace: the Unicode White_Space characters. */
  predicate IsWhiteSpace(c: char)
  {
    || ('\U{0009}' <= c <= '\U{000D}')
    || c == ' ' || c == '\U{0085}' || c == '\U{00A0}' || c == '\U{1680}'
    || ('\U{2000}' <= c <= '\U{200A}')
    || c == '\U{2028}' || c == '\U{2029}' || c == '\U{202F}' || c == '\U{205F}'
    || c == '\U{3000}'
  }

  /** string.IsNullOrWhiteSpace (a null string is modelled as the empty one). */
  predicate IsBlank(s: string)
  {
    forall i :: 0 <= i < |s| ==> IsWhiteSpace(s[i])
  }

  /** Ordinal IndexOf of a char: the first position holding c, or -1. */
  function IndexOf(s: string, c: char): (r: int)
    ensures -1 <= r < |s|
    ensures r == -1 <==> c !in s
    ensures r >= 0 ==> s[r] == c && c !in s[..r]
  {
    if |s| == 0 then -1
    else if s[0] == c then 0
    else
      var k := IndexOf(s[1..], c);
      if k < 0 then -1
      else
        assert s[..k + 1] == [s[0]] + s[1..][..k];
        k + 1
  }

  /** Ordinal substring test (string.Contains). */
  predicate HasSubstring(s: string, sub: string)
  {
    exists i | 0 <= i <= |s| - |sub| :: OccursAt(s, sub, i)
  }

  /** sub appears in s starting at position i. */
  predicate OccursAt(s: string, sub: string, i: int)
  {
    0 <= i <= |s| - |sub| && s[i..i + |sub|] == sub
  }

  /** Number of positions of s holding c. */
  function CountChar(s: string, c: char): (n: nat)
    ensures n == multiset(s)[c]
    ensures n <= |s|
    ensures n == 0 <==> c !in s
  {
    if |s| == 0 then 0
    else
      assert s == [s[0]] + s[1..];
      (if s[0] == c then 1 else 0) + CountChar(s[1..], c)
  }

  /** char.ToUpperInvariant, restricted to the ASCII letters. */
  function ToUpper(c: char): (u: char)
    ensures 'a' <= c <= 'z' ==> u as int == c as int - 32
    ensures !('a' <= c <= 'z') ==> u == c
    ensures !('a' <= u <= 'z')
  {
    if 'a' <= c <= 'z' then (c as int - 32) as char else c
  }

  /** char.ToLowerInvariant, restricted to the ASCII letters. */
  function ToLower(c: char): (l: char)
    ensures 'A' <= c <= 'Z' ==> l as int == c as int + 32
    ensures !('A' <= c <= 'Z') ==> l == c
    ensures !('A' <= l <= 'Z')
  {
    if 'A' <= c <= 'Z' then (c as int + 32) as char else c
  }

  /** string.ToUpperInvariant, char by char. */
  function UpperAll(s: string): (u: string)
    ensures |u| == |s|
    ensures forall i :: 0 <= i < |s| ==> u[i] == ToUpper(s[i])
  {
    if |s| == 0 then [] else [ToUpper(s[0])] + UpperAll(s[1..])
  }

  /** string.Equals(a, b, StringComparison.OrdinalIgnoreCase). */
  predicate EqualsIgnoreCase(a: string, b: string)
  {
    UpperAll(a) == UpperAll(b)
  }

  /**
   * string.Trim(): drops the leading and trailing white space. The shape of
   * the result is stated by TrimShape, so that the recursion stays folded
   * where only the value is needed.
   */
  function Trim(s: string): string
  {
    TrimEndWhite(TrimStartWhite(s))
  }

  /** The leading white space removed. */
  function TrimStartWhite(s: string): string
  {
    if |s| > 0 && IsWhiteSpace(s[0]) then TrimStartWhite(s[1..]) else s
  }

  /** The trailing white space removed. */
  function TrimEndWhite(s: string): string
  {
    if |s| > 0 && IsWhiteSpace(s[|s| - 1]) then TrimEndWhite(s[..|s| - 1]) else s
  }

  /** Trim keeps a middle part of s that neither starts nor ends with white space, and is empty exactly for a blank s. */
  lemma TrimShape(s: string)
    ensures |Trim(s)| <= |s|
    ensures |Trim(s)| > 0 ==> !IsWhiteSpace(Trim(s)[0]) && !IsWhiteSpace(Trim(s)[|Trim(s)| - 1])
    ensures IsBlank(s) <==> |Trim(s)| == 0
  {
    var u := TrimStartWhite(s);
    TrimStartShape(s);
    TrimEndShape(u);
    var t := TrimEndWhite(u);
    if |t| > 0 {
      assert t[0] == u[0];
      assert !IsWhiteSpace(s[|s| - |u|]);
    }
  }

  /** TrimStart of white space drops a blank prefix and stops at a non-blank char. */
  lemma {:induction false} TrimStartShape(s: string)
    ensures |TrimStartWhite(s)| <= |s| && TrimStartWhite(s) == s[|s| - |TrimStartWhite(s)|..]
    ensures |TrimStartWhite(s)| > 0 ==> !IsWhiteSpace(TrimStartWhite(s)[0])
    ensures forall i :: 0 <= i < |s| - |TrimStartWhite(s)| ==> IsWhiteSpace(s[i])
    decreases |s|
  {
    if |s| > 0 && IsWhiteSpace(s[0]) {
      TrimStartShape(s[1..]);
      var t := TrimStartWhite(s[1..]);
      assert s[1..][|s| - 1 - |t|..] == s[|s| - |t|..];
      forall i | 0 <= i < |s| - |t|
        ensures IsWhiteSpace(s[i])
      {
        if i > 0 {
          assert s[i] == s[1..][i - 1];
        }
      }
    }
  }

  /** TrimEnd of white space drops a blank suffix and stops at a non-blank char. */
  lemma {:induction false} TrimEndShape(s: string)
    ensures |TrimEndWhite(s)| <= |s| && TrimEndWhite(s) == s[..|TrimEndWhite(s)|]
    ensures |TrimEndWhite(s)| > 0 ==> !IsWhiteSpace(TrimEndWhite(s)[|TrimEndWhite(s)| - 1])
    ensures forall i :: |TrimEndWhite(s)| <= i < |s| ==> IsWhiteSpace(s[i])
    decreases |s|
  {
    if |s| > 0 && IsWhiteSpace(s[|s| - 1]) {
      TrimEndShape(s[..|s| - 1]);
      var t := TrimEndWhite(s[..|s| - 1]);
      assert s[..|s| - 1][..|t|] == s[..|t|];
      forall i | |t| <= i < |s|
        ensures IsWhiteSpace(s[i])
      {
        if i < |s| - 1 {
          assert s[i] == s[..|s| - 1][i];
        }
      }
    }
  }

  /** string.TrimStart(c): drops every leading copy of c. */
  function TrimStart(s: string, c: char): (t: string)
    ensures |t| <= |s| && t == s[|s| - |t|..]
    ensures |t| > 0 ==> t[0] != c
    ensures forall i :: 0 <= i < |s| - |t| ==> s[i] == c
  {
    if |s| > 0 && s[0] == c then TrimStart(s[1..], c) else s
  }

  /** string.TrimEnd(c): drops every trailing copy of c. */
  function TrimEnd(s: string, c: char): (t: string)
    ensures |t| <= |s| && t == s[..|t|]
    ensures |t| > 0 ==> t[|t| - 1] != c
    ensures forall i :: |t| <= i < |s| ==> s[i] == c
  {
    if |s| > 0 && s[|s| - 1] == c then TrimEnd(s[..|s| - 1], c) else s
  }
}
