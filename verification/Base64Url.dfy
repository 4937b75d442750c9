/**
 The base64url codec of src/card-signing.ts and buyer/card-verify.mjs: `btoa` and `atob`
 with the two characters of section 5 of RFC 4648 substituted and the padding removed.
 */
module Base64Url {
  import opened Options
  import opened Json
  import opened Utf8
  import opened Seqs

  const PLUS: CodeUnit := 43
  const DASH: CodeUnit := 45
  const DOT: CodeUnit := 46
  const SLASH: CodeUnit := 47
  const EQUALS: CodeUnit := 61
  const UNDERSCORE: CodeUnit := 95

  type Sextet = n: int | 0 <= n < 64

  // ------------------------------------------------------------ btoa and atob

  /** The standard alphabet, section 4 of RFC 4648. */
  function Letter(n: Sextet): CodeUnit {
    if n < 26 then 65 + n else if n < 52 then 71 + n else if n < 62 then n - 4
    else if n == 62 then PLUS else SLASH
  }

  predicate IsLetter(u: CodeUnit) {
    65 <= u < 91 || 97 <= u < 123 || 48 <= u < 58 || u == PLUS || u == SLASH
  }

  function LetterValue(u: CodeUnit): (n: Sextet)
    requires IsLetter(u)
    ensures Letter(n) == u
  {
    if 65 <= u < 91 then u - 65 else if 97 <= u < 123 then u - 71 else if 48 <= u < 58 then u + 4
    else if u == PLUS then 62 else 63
  }

  /** Four letters for three bytes. */
  function Quartet(x: Byte, y: Byte, z: Byte): Text {
    [Letter(x / 4), Letter(x % 4 * 16 + y / 16), Letter(y % 16 * 4 + z / 64), Letter(z % 64)]
  }

  /** The letters for a byte string, without padding. */
  function Letters(b: Bytes): Text {
    if |b| == 0 then []
    else if |b| == 1 then [Letter(b[0] / 4), Letter(b[0] % 4 * 16)]
    else if |b| == 2 then [Letter(b[0] / 4), Letter(b[0] % 4 * 16 + b[1] / 16), Letter(b[1] % 16 * 4)]
    else Quartet(b[0], b[1], b[2]) + Letters(b[3..])
  }

  function Pads(n: nat): Text { if n == 0 then [] else [EQUALS] + Pads(n - 1) }

  function Btoa(b: Bytes): Text { Letters(b) + Pads((3 - |b| % 3) % 3) }

  predicate IsSpace(u: CodeUnit) { u in [9, 10, 12, 13, 32] }

  function DropSpaces(t: Text): Text {
    if t == [] then [] else (if IsSpace(t[0]) then [] else [t[0]]) + DropSpaces(t[1..])
  }

  /** A text of whole quartets loses one or two trailing equals signs. */
  function DropPads(t: Text): Text {
    if |t| == 0 || |t| % 4 != 0 || t[|t| - 1] != EQUALS then t
    else if t[|t| - 2] != EQUALS then t[..|t| - 1]
    else t[..|t| - 2]
  }

  predicate AllLetters(t: Text) { forall i | 0 <= i < |t| :: IsLetter(t[i]) }

  /** Three bytes for four letters. */
  function Triple(t: Text): (b: Bytes)
    requires AllLetters(t) && |t| == 4
    ensures |b| == 3
  {
    var s0, s1, s2, s3 := LetterValue(t[0]), LetterValue(t[1]), LetterValue(t[2]), LetterValue(t[3]);
    [s0 * 4 + s1 / 16, s1 % 16 * 16 + s2 / 4, s2 % 4 * 64 + s3]
  }

  /** The bytes for two or three letters; the leftover bits are discarded. */
  function Ending(t: Text): Bytes
    requires AllLetters(t) && 2 <= |t| <= 3
  {
    var s0, s1 := LetterValue(t[0]), LetterValue(t[1]);
    if |t| == 2 then [s0 * 4 + s1 / 16]
    else [s0 * 4 + s1 / 16, s1 % 16 * 16 + LetterValue(t[2]) / 4]
  }

  function LettersToBytes(t: Text): Bytes
    requires AllLetters(t) && |t| % 4 != 1
  {
    if |t| == 0 then [] else if |t| < 4 then Ending(t) else Triple(t[..4]) + LettersToBytes(t[4..])
  }

  /** `atob`, which throws (here: None) on anything but base64 with optional white space. */
  function Atob(t: Text): Option<Bytes> {
    var letters := DropPads(DropSpaces(t));
    if |letters| % 4 == 1 || !AllLetters(letters) then None else Some(LettersToBytes(letters))
  }

  // ----------------------------------------------------------- the url variant

  function Replace(t: Text, old': CodeUnit, new': CodeUnit): (r: Text)
    ensures |r| == |t| && forall i | 0 <= i < |t| :: r[i] == if t[i] == old' then new' else t[i]
  {
    seq(|t|, i requires 0 <= i < |t| => if t[i] == old' then new' else t[i])
  }

  /** `.replace(/=+$/, "")` */
  function StripPads(t: Text): Text {
    if t == [] || t[|t| - 1] != EQUALS then t else StripPads(t[..|t| - 1])
  }

  function ToUrl(t: Text): Text { Replace(Replace(t, PLUS, DASH), SLASH, UNDERSCORE) }

  function FromUrl(t: Text): Text { Replace(Replace(t, DASH, PLUS), UNDERSCORE, SLASH) }

  function ToBase64Url(b: Bytes): Text { StripPads(ToUrl(Btoa(b))) }

  /** The padding expression `"===".slice((length + 3) % 4)`. */
  function Padding(length: nat): Text { [EQUALS, EQUALS, EQUALS][(length + 3) % 4..] }

  /** `base64urlToBytes`, which throws when `atob` does. */
  function ToBytes(t: Text): Option<Bytes> { Atob(FromUrl(t) + Padding(|t|)) }

  /** `base64url`, with its loop from bytes to a binary string: a URL-safe text that decodes to the bytes. */
  method EncodeBase64Url(bytes: Bytes) returns (r: Text)
    ensures r == ToBase64Url(bytes) && ToBytes(r) == Some(bytes)
    ensures forall u | u in r :: IsUrlLetter(u)
  {
    hide Btoa, ToBytes, Replace, StripPads, IsUrlLetter;
    var binary: Bytes := [];
    for i := 0 to |bytes|
      invariant binary == bytes[..i]
    {
      binary := binary + [bytes[i]];
    }
    assert bytes[..|bytes|] == bytes;
    r := StripPads(Replace(Replace(Btoa(binary), PLUS, DASH), SLASH, UNDERSCORE));
    RoundTrip(bytes);
    UrlAlphabet(bytes);
  }

  // ----------------------------------------------------------------- round trip

  lemma LetterLetters(n: Sextet)
    ensures IsLetter(Letter(n)) && LetterValue(Letter(n)) == n
  {
  }

  lemma {:induction false} LettersLength(b: Bytes)
    ensures |Letters(b)| % 4 == if |b| % 3 == 0 then 0 else |b| % 3 + 1
  {
    hide Letter;
    if |b| > 2 {
      LettersLength(b[3..]);
    }
  }

  lemma {:induction false} LettersAreLetters(b: Bytes)
    ensures AllLetters(Letters(b))
  {
    if |b| > 2 {
      LettersAreLetters(b[3..]);
      QuartetLetters(b[0], b[1], b[2]);
    } else if |b| == 2 {
      LetterLetters(b[0] / 4);
      LetterLetters(b[0] % 4 * 16 + b[1] / 16);
      LetterLetters(b[1] % 16 * 4);
    } else if |b| == 1 {
      LetterLetters(b[0] / 4);
      LetterLetters(b[0] % 4 * 16);
    }
  }

  lemma QuartetLetters(x: Byte, y: Byte, z: Byte)
    ensures AllLetters(Quartet(x, y, z))
  {
    LetterLetters(x / 4);
    LetterLetters(x % 4 * 16 + y / 16);
    LetterLetters(y % 16 * 4 + z / 64);
    LetterLetters(z % 64);
  }

  lemma QuartetBits(x: Byte, y: Byte, z: Byte)
    ensures x / 4 * 4 + (x % 4 * 16 + y / 16) / 16 == x
    ensures (x % 4 * 16 + y / 16) % 16 * 16 + (y % 16 * 4 + z / 64) / 4 == y
    ensures (y % 16 * 4 + z / 64) % 4 * 64 + z % 64 == z
  {
  }

  lemma TripleOf(s0: Sextet, s1: Sextet, s2: Sextet, s3: Sextet)
    ensures var t := [Letter(s0), Letter(s1), Letter(s2), Letter(s3)];
      AllLetters(t) && Triple(t) == [s0 * 4 + s1 / 16, s1 % 16 * 16 + s2 / 4, s2 % 4 * 64 + s3]
  {
    LetterLetters(s0);
    LetterLetters(s1);
    LetterLetters(s2);
    LetterLetters(s3);
  }

  /** Four letters carry three bytes. */
  lemma QuartetBack(x: Byte, y: Byte, z: Byte)
    requires AllLetters(Quartet(x, y, z))
    ensures Triple(Quartet(x, y, z)) == [x, y, z]
  {
    hide Letter, Triple;
    QuartetBits(x, y, z);
    TripleOf(x / 4, x % 4 * 16 + y / 16, y % 16 * 4 + z / 64, z % 64);
  }

  lemma OneByteBack(x: Byte)
    ensures var t := [Letter(x / 4), Letter(x % 4 * 16)]; AllLetters(t) && Ending(t) == [x]
  {
    LetterLetters(x / 4);
    LetterLetters(x % 4 * 16);
  }

  lemma TwoBytesBack(x: Byte, y: Byte)
    ensures var t := [Letter(x / 4), Letter(x % 4 * 16 + y / 16), Letter(y % 16 * 4)];
      AllLetters(t) && Ending(t) == [x, y]
  {
    LetterLetters(x / 4);
    LetterLetters(x % 4 * 16 + y / 16);
    LetterLetters(y % 16 * 4);
  }

  lemma EndingBack(b: Bytes)
    requires 1 <= |b| <= 2
    ensures AllLetters(Letters(b)) && Ending(Letters(b)) == b
  {
    hide Letter, Ending, AllLetters;
    if |b| == 1 { OneByteBack(b[0]); } else { TwoBytesBack(b[0], b[1]); }
  }

  lemma {:induction false} LettersBack(b: Bytes)
    requires AllLetters(Letters(b)) && |Letters(b)| % 4 != 1
    ensures LettersToBytes(Letters(b)) == b
  {
    hide Triple, Ending, IsLetter, Letter;
    if |b| > 2 {
      LettersAreLetters(b[3..]);
      LettersLength(b[3..]);
      QuartetLetters(b[0], b[1], b[2]);
      LettersBack(b[3..]);
      QuartetBack(b[0], b[1], b[2]);
      assert b == [b[0], b[1], b[2]] + b[3..];
    } else if |b| > 0 {
      EndingBack(b);
    }
  }

  ghost predicate NoSpaces(t: Text) { forall i | 0 <= i < |t| :: !IsSpace(t[i]) }

  lemma {:induction false} NoSpacesToDrop(t: Text)
    requires NoSpaces(t)
    ensures DropSpaces(t) == t
  {
    if t != [] {
      NoSpacesToDrop(t[1..]);
      assert t == [t[0]] + t[1..];
    }
  }

  ghost predicate NoPadEnd(t: Text) { t == [] || t[|t| - 1] != EQUALS }

  lemma PaddingIs(n: nat)
    ensures Padding(n) ==
      if n % 4 == 0 then []
      else if n % 4 == 1 then [EQUALS, EQUALS, EQUALS]
      else if n % 4 == 2 then [EQUALS, EQUALS]
      else [EQUALS]
  {
    PaddingFrom((n + 3) % 4);
  }

  lemma PaddingFrom(k: nat)
    requires k <= 3
    ensures [EQUALS, EQUALS, EQUALS][k..] ==
      if k == 3 then [] else if k == 0 then [EQUALS, EQUALS, EQUALS] else if k == 1 then [EQUALS, EQUALS] else [EQUALS]
  {
  }

  lemma DropPadsOf(t: Text, pads: Text)
    requires NoPadEnd(t) && pads in [[], [EQUALS], [EQUALS, EQUALS]] && |t + pads| % 4 == 0
    ensures DropPads(t + pads) == t
  {
    assert t + [] == t;
    assert pads != [] ==> (t + pads)[|t + pads| - 1] == EQUALS;
    assert (t + pads)[..|t|] == t;
  }

  /** The padding expression adds what `atob` removes, for every length but 1 modulo 4. */
  lemma PaddingFits(t: Text)
    requires |t| % 4 != 1 && NoPadEnd(t)
    ensures |t + Padding(|t|)| % 4 == 0 && DropPads(t + Padding(|t|)) == t
  {
    PaddingIs(|t|);
    DropPadsOf(t, Padding(|t|));
  }

  lemma PaddedNoSpaces(t: Text)
    requires NoSpaces(t)
    ensures NoSpaces(t + Padding(|t|))
  {
    PaddingIs(|t|);
  }

  lemma OneOver(t: Text)
    requires |t| % 4 == 1
    ensures EQUALS in DropPads(t + [EQUALS, EQUALS, EQUALS])
  {
    var padded := t + [EQUALS, EQUALS, EQUALS];
    assert padded[|t|] == padded[|t| + 1] == padded[|t| + 2] == EQUALS;
    assert DropPads(padded) == padded[..|t| + 1];
    assert DropPads(padded)[|t|] == EQUALS;
  }

  /** A text of length 1 modulo 4 is never accepted. */
  lemma PaddingOneOver(t: Text)
    requires |t| % 4 == 1 && NoSpaces(t)
    ensures ToBytes(t) == None
  {
    var u := FromUrl(t);
    PaddedNoSpaces(u);
    NoSpacesToDrop(u + Padding(|u|));
    PaddingIs(|u|);
    OneOver(u);
    var letters := DropPads(u + Padding(|u|));
    var i :| 0 <= i < |letters| && letters[i] == EQUALS;
    assert !IsLetter(letters[i]);
  }

  lemma {:induction false} StripAdded(t: Text, n: nat)
    requires NoPadEnd(t)
    ensures StripPads(t + Pads(n)) == t
  {
    if n == 0 {
      assert t + Pads(n) == t;
    } else {
      PadsEnd(n);
      assert (t + Pads(n))[..|t| + |Pads(n)| - 1] == t + Pads(n - 1);
      StripAdded(t, n - 1);
    }
  }

  lemma {:induction false} PadsEnd(n: nat)
    requires n > 0
    ensures Pads(n) == Pads(n - 1) + [EQUALS]
  {
    if n > 1 { PadsEnd(n - 1); }
  }

  lemma {:induction false} PadsUnchanged(n: nat)
    ensures ToUrl(Pads(n)) == Pads(n)
  {
    if n > 0 {
      PadsUnchanged(n - 1);
      ToUrlConcat([EQUALS], Pads(n - 1));
      assert ToUrl([EQUALS]) == [EQUALS];
    }
  }

  lemma ToUrlConcat(s: Text, t: Text)
    ensures ToUrl(s + t) == ToUrl(s) + ToUrl(t)
  {
  }

  lemma UrlForm(b: Bytes)
    ensures ToBase64Url(b) == ToUrl(Letters(b)) && NoPadEnd(ToUrl(Letters(b)))
  {
    var n := (3 - |b| % 3) % 3;
    LettersAreLetters(b);
    ToUrlConcat(Letters(b), Pads(n));
    PadsUnchanged(n);
    var t := ToUrl(Letters(b));
    StripAdded(t, n);
  }

  lemma FromToUrl(t: Text)
    requires AllLetters(t)
    ensures FromUrl(ToUrl(t)) == t
  {
  }

  /** Every byte string survives base64url and back. */
  lemma RoundTrip(b: Bytes)
    ensures ToBytes(ToBase64Url(b)) == Some(b)
  {
    LettersAreLetters(b);
    LettersLength(b);
    UrlForm(b);
    FromToUrl(Letters(b));
    AtobOfLetters(Letters(b));
    LettersBack(b);
  }

  lemma AtobOfLetters(t: Text)
    requires AllLetters(t) && |t| % 4 != 1
    ensures Atob(t + Padding(|t|)) == Some(LettersToBytes(t))
  {
    hide Padding, DropPads, DropSpaces, LettersToBytes;
    PaddingFits(t);
    PaddedNoSpaces(t);
    NoSpacesToDrop(t + Padding(|t|));
  }

  /** The alphabet of section 5 of RFC 4648. */
  predicate IsUrlLetter(u: CodeUnit) {
    65 <= u < 91 || 97 <= u < 123 || 48 <= u < 58 || u == DASH || u == UNDERSCORE
  }

  /** The output has no separator and none of the three characters that base64url avoids. */
  lemma UrlAlphabet(b: Bytes)
    ensures forall u | u in ToBase64Url(b) :: IsUrlLetter(u)
    ensures forall u | u in [DOT, PLUS, SLASH, EQUALS] :: u !in ToBase64Url(b)
  {
    LettersAreLetters(b);
    UrlForm(b);
    forall u | u in ToBase64Url(b) ensures IsUrlLetter(u) {
      var i :| 0 <= i < |ToBase64Url(b)| && ToBase64Url(b)[i] == u;
      assert IsLetter(Letters(b)[i]);
    }
  }

  // -------------------------------------------------- what the decoder can accept

  lemma {:induction false} DropSpacesKeeps(t: Text, u: CodeUnit)
    requires u in t && !IsSpace(u)
    ensures u in DropSpaces(t)
  {
    if t[0] != u { DropSpacesKeeps(t[1..], u); }
  }

  lemma DropPadsKeeps(t: Text, u: CodeUnit)
    requires u in t && u != EQUALS
    ensures u in DropPads(t)
  {
    var k :| 0 <= k < |t| && t[k] == u;
    assert DropPads(t)[k] == u;
  }

  /** A text the decoder accepts is ASCII and holds no '.', whoever wrote it. */
  lemma AcceptedText(t: Text)
    requires ToBytes(t).Some?
    ensures DOT !in t && Ascii(t)
  {
    var padded := FromUrl(t) + Padding(|t|);
    var letters := DropPads(DropSpaces(padded));
    forall i | 0 <= i < |t| ensures t[i] != DOT && t[i] < 128 {
      var u := FromUrl(t)[i];
      assert padded[i] == u;
      if !IsSpace(u) {
        DropSpacesKeeps(padded, u);
        if u != EQUALS { DropPadsKeeps(DropSpaces(padded), u); }
      }
    }
  }
}
