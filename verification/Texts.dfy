/** Character classes, case and white space, as JavaScript has them. */
module Texts {
  /** The characters that the class for white space matches. */
  predicate IsSpace(c: char) {
    var n := c as int;
    || 9 <= n <= 13 || n == 32 || n == 0xA0 || n == 0x1680 || 0x2000 <= n <= 0x200A
    || n == 0x2028 || n == 0x2029 || n == 0x202F || n == 0x205F || n == 0x3000 || n == 0xFEFF
  }

  predicate IsDigit(c: char) { '0' <= c <= '9' }

  /** Latin letters in lower case; everything else as it is. */
  function LowerAscii(c: char): char { if 'A' <= c <= 'Z' then c - 'A' + 'a' else c }

  /** `toLowerCase` of an ASCII text. */
  function Lower(s: string): string { seq(|s|, k requires 0 <= k < |s| => LowerAscii(s[k])) }

  /** `trimStart`. */
  function TrimStart(s: string): string { if s != "" && IsSpace(s[0]) then TrimStart(s[1..]) else s }

  predicate Spaces(s: string) { forall k | 0 <= k < |s| :: IsSpace(s[k]) }

  lemma {:induction false} TrimStartDrops(space: string, s: string)
    requires Spaces(space) && (s != "" ==> !IsSpace(s[0]))
    ensures TrimStart(space + s) == s
  {
    if space == "" {
      assert space + s == s;
    } else {
      assert IsSpace(space[0]) && (space + s)[1..] == space[1..] + s;
      TrimStartDrops(space[1..], s);
    }
  }
}
