/** String operations with the meaning Python gives them; strings are sequences of code points. */
module Text {

  /** Python's `s.startswith(p)`. */
  predicate StartsWith(s: string, p: string) {
    |p| <= |s| && s[..|p|] == p
  }

  /** Python's `needle in s` on two strings: some contiguous run of `s` equals `needle`. */
  predicate Contains(s: string, needle: string)
    decreases |s|
  {
    StartsWith(s, needle) || (|s| > 0 && Contains(s[1..], needle))
  }

  /** Putting anything in front of a string keeps every substring it already had. */
  lemma {:induction false} ContainsAfterPrefix(p: string, s: string, needle: string)
    requires Contains(s, needle)
    ensures Contains(p + s, needle)
    decreases |p|
  {
    if p != [] {
      assert (p + s)[1..] == p[1..] + s;
      ContainsAfterPrefix(p[1..], s, needle);
    } else {
      assert p + s == s;
    }
  }

  /** Lower-casing of one character, on the ASCII letters. */
  function LowerChar(c: char): (d: char)
    ensures 'A' <= c <= 'Z' ==> 'a' <= d <= 'z' && d as int == c as int + 32
    ensures !('A' <= c <= 'Z') ==> d == c
  {
    if 'A' <= c <= 'Z' then (c as int + 32) as char else c
  }

  /** Python's `s.lower()`, restricted to the ASCII letters (see README). */
  function Lower(s: string): (r: string)
    ensures |r| == |s|
    ensures forall i :: 0 <= i < |s| ==> r[i] == LowerChar(s[i])
  {
    seq(|s|, i requires 0 <= i < |s| => LowerChar(s[i]))
  }

  /** Python's `needle in s.lower()`, the case-insensitive class test of the source. */
  predicate ContainsIgnoringCase(s: string, needle: string) {
    Contains(Lower(s), needle)
  }

  /** Python's `s[:n]` for any integer `n`: a negative bound counts from the end. */
  function SliceTo(s: string, n: int): (r: string)
    ensures 0 <= n <= |s| ==> r == s[..n]
    ensures n > |s| ==> r == s
    ensures n < 0 && |s| + n >= 0 ==> r == s[..|s| + n]
    ensures n < 0 && |s| + n < 0 ==> r == []
  {
    if n >= 0 then s[..if n <= |s| then n else |s|]
    else s[..if |s| + n >= 0 then |s| + n else 0]
  }
}
