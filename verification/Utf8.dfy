/**
 TextEncoder: UTF-16 text to UTF-8 bytes. A surrogate without its partner becomes U+FFFD,
 so encoding is injective exactly on the texts this module calls well formed.
 */
module Utf8 {
  import opened Json
  import opened Seqs

  type Byte = n: int | 0 <= n < 256
  type Bytes = seq<Byte>

  function CodePoint(hi: CodeUnit, lo: CodeUnit): int
    requires IsHigh(hi) && IsLow(lo)
  {
    0x1_0000 + (hi - 0xD800) * 0x400 + (lo - 0xDC00)
  }

  function EncodeUnit(u: CodeUnit): Bytes {
    if u < 0x80 then [u]
    else if u < 0x800 then [0xC0 + u / 64, 0x80 + u % 64]
    else if IsHigh(u) || IsLow(u) then [0xEF, 0xBF, 0xBD]
    else [0xE0 + u / 0x1000, 0x80 + u / 64 % 64, 0x80 + u % 64]
  }

  function EncodePair(hi: CodeUnit, lo: CodeUnit): Bytes
    requires IsHigh(hi) && IsLow(lo)
  {
    var c := CodePoint(hi, lo);
    [0xF0 + c / 0x4_0000, 0x80 + c / 0x1000 % 64, 0x80 + c / 64 % 64, 0x80 + c % 64]
  }

  /** The code units of the first code point of a text. */
  function FirstPoint(s: Text): (p: Text)
    requires s != []
    ensures 1 <= |p| <= |s| && p == s[..|p|]
  {
    if StartsWithPair(s) then s[..2] else s[..1]
  }

  function EncodePoint(s: Text): Bytes
    requires s != []
  {
    if StartsWithPair(s) then EncodePair(s[0], s[1]) else EncodeUnit(s[0])
  }

  function Encode(s: Text): Bytes {
    if s == [] then [] else EncodePoint(s) + Encode(s[|FirstPoint(s)|..])
  }

  /** No surrogate without its partner. */
  predicate Utf16(s: Text) {
    s == [] || ((StartsWithPair(s) || !(IsHigh(s[0]) || IsLow(s[0]))) && Utf16(s[|FirstPoint(s)|..]))
  }

  // -------------------------------------------------------------- injectivity

  /** Reads one code point; the inverse of `EncodePoint` on well-formed text. */
  function DecodePoint(b: Bytes): (r: (seq<int>, nat))
    requires b != []
  {
    if b[0] < 0x80 || |b| < 2 then ([b[0]], 1)
    else if b[0] < 0xE0 || |b| < 3 then ([(b[0] - 0xC0) * 64 + (b[1] - 0x80)], 2)
    else if b[0] < 0xF0 || |b| < 4 then ([(b[0] - 0xE0) * 0x1000 + (b[1] - 0x80) * 64 + (b[2] - 0x80)], 3)
    else
      var (b0: int, b1: int, b2: int, b3: int) := (b[0], b[1], b[2], b[3]);
      var c := (b0 - 0xF0) * 0x4_0000 + (b1 - 0x80) * 0x1000 + (b2 - 0x80) * 64 + (b3 - 0x80) - 0x1_0000;
      ([0xD800 + c / 0x400, 0xDC00 + c % 0x400], 4)
  }

  lemma Digits64(c: nat)
    ensures c == c / 64 * 64 + c % 64
    ensures c == c / 0x1000 * 0x1000 + c / 64 % 64 * 64 + c % 64
    ensures c == c / 0x4_0000 * 0x4_0000 + c / 0x1000 % 64 * 0x1000 + c / 64 % 64 * 64 + c % 64
  {
    assert c / 0x1000 == c / 64 / 64;
    assert c / 0x4_0000 == c / 0x1000 / 64;
  }

  lemma DecodePairPoint(hi: CodeUnit, lo: CodeUnit, r: Bytes)
    requires IsHigh(hi) && IsLow(lo)
    ensures DecodePoint(EncodePair(hi, lo) + r) == ([hi, lo], 4)
  {
    var c := CodePoint(hi, lo);
    Digits64(c);
    var b := EncodePair(hi, lo) + r;
    assert forall i | 0 <= i < 4 :: b[i] == EncodePair(hi, lo)[i];
    assert (c - 0x1_0000) / 0x400 == hi - 0xD800 && (c - 0x1_0000) % 0x400 == lo - 0xDC00;
  }

  lemma DecodeEncodedPoint(s: Text, r: Bytes)
    requires s != [] && Utf16(s)
    ensures DecodePoint(EncodePoint(s) + r) == (FirstPoint(s), |EncodePoint(s)|)
  {
    if StartsWithPair(s) {
      DecodePairPoint(s[0], s[1], r);
      assert FirstPoint(s) == [s[0], s[1]];
    } else {
      assert FirstPoint(s) == [s[0]];
    }
  }

  /** Well-formed texts with the same UTF-8 encoding are the same text. */
  lemma {:induction false} EncodeInjective(s: Text, t: Text)
    requires Utf16(s) && Utf16(t) && Encode(s) == Encode(t)
    ensures s == t
    decreases |s|
  {
    if s != [] && t != [] {
      var r1, r2 := Encode(s[|FirstPoint(s)|..]), Encode(t[|FirstPoint(t)|..]);
      DecodeEncodedPoint(s, r1);
      DecodeEncodedPoint(t, r2);
      Cancel(EncodePoint(s), r1, EncodePoint(t), r2);
      EncodeInjective(s[|FirstPoint(s)|..], t[|FirstPoint(t)|..]);
      assert s == FirstPoint(s) + s[|FirstPoint(s)|..] && t == FirstPoint(t) + t[|FirstPoint(t)|..];
    }
  }

  // ------------------------------------------------- canonical text is well formed

  ghost predicate Ascii(s: Text) { forall i | 0 <= i < |s| :: s[i] < 128 }

  lemma {:induction false} AsciiUtf16(s: Text)
    requires Ascii(s)
    ensures Utf16(s)
  {
    if s != [] {
      AsciiUtf16(s[1..]);
    }
  }

  /** An ASCII text is its own encoding. */
  lemma {:induction false} AsciiEncode(s: Text)
    requires Ascii(s)
    ensures Encode(s) == s
  {
    if s != [] {
      AsciiEncode(s[1..]);
      assert s == [s[0]] + s[1..];
    }
  }

  lemma {:induction false} Utf16Concat(s: Text, t: Text)
    requires Utf16(s) && Utf16(t)
    ensures Utf16(s + t)
    decreases |s|
  {
    if s == [] {
      assert s + t == t;
    } else {
      var n := |FirstPoint(s)|;
      assert StartsWithPair(s) || n == 1;
      Utf16Concat(s[n..], t);
      assert (s + t)[n..] == s[n..] + t && (s + t)[0] == s[0];
    }
  }

  lemma EscapeUnitUtf16(u: CodeUnit)
    ensures Utf16(EscapeUnit(u))
  {
    if EscapeUnit(u) == [u] {
      assert Utf16([u]);
    } else {
      AsciiUtf16(EscapeUnit(u));
    }
  }

  lemma {:induction false} EscapeAllUtf16(s: Text)
    ensures Utf16(EscapeAll(s))
    decreases |s|
  {
    if s != [] && StartsWithPair(s) {
      EscapeAllUtf16(s[2..]);
      var pair := [s[0], s[1]];
      assert StartsWithPair(pair) && pair[|FirstPoint(pair)|..] == [];
      Utf16Concat(pair, EscapeAll(s[2..]));
    } else if s != [] {
      EscapeAllUtf16(s[1..]);
      EscapeUnitUtf16(s[0]);
      Utf16Concat(EscapeUnit(s[0]), EscapeAll(s[1..]));
    }
  }

  lemma QuoteUtf16(s: Text)
    ensures Utf16(Quote(s))
  {
    EscapeAllUtf16(s);
    assert Ascii([QUOTE]);
    AsciiUtf16([QUOTE]);
    Utf16Concat([QUOTE], EscapeAll(s));
    Utf16Concat([QUOTE] + EscapeAll(s), [QUOTE]);
  }

  lemma {:induction false} JoinUtf16(parts: seq<Text>)
    requires forall p | p in parts :: Utf16(p)
    ensures Utf16(Join(parts))
  {
    if parts != [] {
      assert parts[0] in parts;
      if |parts| > 1 {
        JoinUtf16(parts[1..]);
        assert Ascii([COMMA]);
        AsciiUtf16([COMMA]);
        Utf16Concat([COMMA], Join(parts[1..]));
        Utf16Concat(parts[0], [COMMA] + Join(parts[1..]));
      }
    }
  }

  lemma Enclosed(open: CodeUnit, t: Text, close: CodeUnit)
    requires open < 128 && close < 128 && Utf16(t)
    ensures Utf16([open] + t + [close])
  {
    AsciiUtf16([open]);
    AsciiUtf16([close]);
    Utf16Concat([open], t);
    Utf16Concat([open] + t, [close]);
  }

  lemma {:induction false} PrintItemsUtf16(items: seq<Value>)
    requires forall x | x in items :: AllFinite(x)
    ensures forall p | p in PrintItems(items) :: Utf16(p)
    decreases items
  {
    if items != [] {
      assert Ascii(NULL_TEXT);
      AsciiUtf16(NULL_TEXT);
      if !items[0].Undefined? { PrintUtf16(items[0]); }
      PrintItemsUtf16(items[1..]);
    }
  }

  lemma {:induction false} PrintMembersUtf16(members: seq<Member>)
    requires forall m | m in members :: AllFinite(m.value)
    ensures forall e | e in PrintMembers(members) :: Utf16(e.text)
    decreases members
  {
    if members != [] {
      if !members[0].value.Undefined? { PrintUtf16(members[0].value); }
      PrintMembersUtf16(members[1..]);
    }
  }

  lemma {:induction false} EntryTextsUtf16(es: seq<Entry>)
    requires forall e | e in es :: Utf16(e.text)
    ensures forall p | p in EntryTexts(es) :: Utf16(p)
  {
    if es != [] {
      EntryTextsUtf16(es[1..]);
      QuoteUtf16(es[0].key);
      assert Ascii([COLON]);
      AsciiUtf16([COLON]);
      Utf16Concat(Quote(es[0].key), [COLON]);
      assert es[0] in es;
      Utf16Concat(Quote(es[0].key) + [COLON], es[0].text);
    }
  }

  lemma NumberUtf16(n: int)
    ensures Utf16(PrintInt(n))
  {
    var digits := PrintNat(if n < 0 then -n else n);
    forall i | 0 <= i < |digits| ensures digits[i] < 128 {
      assert digits[i] in digits;
    }
    AsciiUtf16(PrintInt(n));
  }

  /** Canonical text never holds a lone surrogate: JSON.stringify escapes them. */
  lemma {:induction false} PrintUtf16(v: Value)
    requires AllFinite(v) && !v.Undefined?
    ensures Utf16(Print(v))
    decreases v
  {
    match v
    case Num(num) => NumberUtf16(num.value);
    case Str(text) => QuoteUtf16(text);
    case Arr(items) =>
      PrintItemsUtf16(items);
      JoinUtf16(PrintItems(items));
      Enclosed(OPEN_BRACKET, Join(PrintItems(items)), CLOSE_BRACKET);
    case Obj(members) =>
      PrintMembersUtf16(members);
      SortedEntriesUtf16(PrintMembers(members));
      Enclosed(OPEN_BRACE, Join(EntryTexts(SortByKey(PrintMembers(members)))), CLOSE_BRACE);
    case Null => AsciiUtf16(NULL_TEXT);
    case Bool(b) => AsciiUtf16(if b then TRUE_TEXT else FALSE_TEXT);
    case Undefined =>
  }

  lemma SortedEntriesUtf16(es: seq<Entry>)
    requires forall e | e in es :: Utf16(e.text)
    ensures Utf16(Join(EntryTexts(SortByKey(es))))
  {
    forall e | e in SortByKey(es) ensures Utf16(e.text) {
      assert e in multiset(SortByKey(es));
      assert e in multiset(es);
    }
    EntryTextsUtf16(SortByKey(es));
    JoinUtf16(EntryTexts(SortByKey(es)));
  }
}
