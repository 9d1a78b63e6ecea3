/**
 * The few `java.lang.String` operations the line parsers rely on:
 * `startsWith`, `contains` and `trim`, on strings as sequences of characters.
 */
module Strings {

  /** `s.startsWith(prefix)`. */
  predicate StartsWith(s: string, prefix: string) {
    |prefix| <= |s| && s[..|prefix|] == prefix
  }

  /** `sub` occurs in `s` starting at index `i`. */
  predicate OccursAt(s: string, sub: string, i: int) {
    0 <= i <= |s| - |sub| && s[i..i + |sub|] == sub
  }

  /** `s.contains(sub)`: some index of `s` starts an occurrence of `sub`. */
  predicate Contains(s: string, sub: string) {
    exists i :: 0 <= i <= |s| - |sub| && OccursAt(s, sub, i)
  }

  /** The characters `String.trim` removes: code points up to U+0020. */
  predicate IsTrimmed(c: char) {
    c <= ' '
  }

  function TrimStart(s: string): (r: string)
    ensures |r| <= |s| && r == s[|s| - |r|..]
    ensures r == [] || !IsTrimmed(r[0])
    ensures forall i :: 0 <= i < |s| - |r| ==> IsTrimmed(s[i])
    decreases |s|
  {
    if |s| > 0 && IsTrimmed(s[0]) then TrimStart(s[1..]) else s
  }

  function TrimEnd(s: string): (r: string)
    ensures |r| <= |s| && r == s[..|r|]
    ensures r == [] || !IsTrimmed(r[|r| - 1])
    ensures forall i :: |r| <= i < |s| ==> IsTrimmed(s[i])
    decreases |s|
  {
    if |s| > 0 && IsTrimmed(s[|s| - 1]) then TrimEnd(s[..|s| - 1]) else s
  }

  /** `s.trim()`: the input without its leading and trailing control characters and spaces. */
  function Trim(s: string): string {
    TrimEnd(TrimStart(s))
  }
}
