/** Facts about sequences that several proofs need. */
module Seqs {
  /** Equal concatenations with equally long fronts have equal parts. */
  lemma Cancel<T>(a: seq<T>, r: seq<T>, b: seq<T>, s: seq<T>)
    requires a + r == b + s && |a| == |b|
    ensures a == b && r == s
  {
    assert a == (a + r)[..|a|] && b == (b + s)[..|b|];
    assert r == (a + r)[|a|..] && s == (b + s)[|b|..];
  }

  lemma Assoc<T>(a: seq<T>, b: seq<T>, c: seq<T>)
    ensures a + b + c == a + (b + c)
  {
  }

  lemma First<T>(a: seq<T>, r: seq<T>)
    requires a != []
    ensures (a + r)[0] == a[0] && (a + r)[1..] == a[1..] + r
  {
  }
}
