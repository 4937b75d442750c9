/**
 JSON values and the canonicalizer of src/card-signing.ts and buyer/card-verify.mjs
 (JSON Canonicalization Scheme, section 3.2 of RFC 8785).

 Strings are sequences of UTF-16 code units, because that is what JavaScript compares,
 sorts and escapes. Numbers are integers, or one of the non-finite values that
 `canonicalize` refuses.
 */
module Json {
  import opened Options

  type CodeUnit = n: int | 0 <= n < 0x1_0000
  type Text = seq<CodeUnit>

  datatype Number = Finite(value: int) | NonFinite

  datatype Value =
    | Undefined
    | Null
    | Bool(b: bool)
    | Num(num: Number)
    | Str(text: Text)
    | Arr(items: seq<Value>)
    | Obj(members: seq<Member>)

  datatype Member = Member(key: Text, value: Value)

  const COMMA: CodeUnit := 44
  const COLON: CodeUnit := 58
  const QUOTE: CodeUnit := 34
  const BACKSLASH: CodeUnit := 92
  const MINUS: CodeUnit := 45
  const OPEN_BRACKET: CodeUnit := 91
  const CLOSE_BRACKET: CodeUnit := 93
  const OPEN_BRACE: CodeUnit := 123
  const CLOSE_BRACE: CodeUnit := 125
  const NULL_TEXT: Text := [110, 117, 108, 108]
  const TRUE_TEXT: Text := [116, 114, 117, 101]
  const FALSE_TEXT: Text := [102, 97, 108, 115, 101]

  // ---------------------------------------------------------------- strings

  predicate IsHigh(u: CodeUnit) { 0xD800 <= u < 0xDC00 }

  predicate IsLow(u: CodeUnit) { 0xDC00 <= u < 0xE000 }

  /** Does the text start with a surrogate pair, that is with one supplementary code point? */
  predicate StartsWithPair(s: Text) { |s| >= 2 && IsHigh(s[0]) && IsLow(s[1]) }

  function HexDigit(n: int): (u: CodeUnit)
    requires 0 <= n < 16
    ensures u < 128
  {
    if n < 10 then 48 + n else 87 + n
  }

  function Hex4(u: CodeUnit): Text {
    [HexDigit(u / 0x1000), HexDigit(u / 0x100 % 16), HexDigit(u / 16 % 16), HexDigit(u % 16)]
  }

  /** How JSON.stringify writes one code unit that is not part of a surrogate pair. */
  function EscapeUnit(u: CodeUnit): Text {
    if u == 8 then [BACKSLASH, 98]
    else if u == 9 then [BACKSLASH, 116]
    else if u == 10 then [BACKSLASH, 110]
    else if u == 12 then [BACKSLASH, 102]
    else if u == 13 then [BACKSLASH, 114]
    else if u == QUOTE then [BACKSLASH, QUOTE]
    else if u == BACKSLASH then [BACKSLASH, BACKSLASH]
    else if u < 32 || IsHigh(u) || IsLow(u) then [BACKSLASH, 117] + Hex4(u)
    else [u]
  }

  function EscapeAll(s: Text): Text {
    if s == [] then []
    else if StartsWithPair(s) then [s[0], s[1]] + EscapeAll(s[2..])
    else EscapeUnit(s[0]) + EscapeAll(s[1..])
  }

  function Quote(s: Text): Text { [QUOTE] + EscapeAll(s) + [QUOTE] }

  // ---------------------------------------------------------------- numbers

  predicate IsDigit(u: CodeUnit) { 48 <= u < 58 }

  function PrintNat(n: nat): (t: Text)
    ensures |t| > 0 && forall u | u in t :: IsDigit(u)
  {
    if n < 10 then [48 + n] else PrintNat(n / 10) + [48 + n % 10]
  }

  function PrintInt(n: int): Text {
    if n < 0 then [MINUS] + PrintNat(-n) else PrintNat(n)
  }

  // ------------------------------------------------------------ canonical form

  /** Every number in the value is finite, so `canonicalize` does not throw. */
  predicate AllFinite(v: Value) {
    match v
    case Num(num) => num.Finite?
    case Arr(items) => forall x | x in items :: AllFinite(x)
    case Obj(members) => forall m | m in members :: AllFinite(m.value)
    case _ => true
  }

  /** Objects have each key once, as every JavaScript object does. */
  predicate WellFormed(v: Value) {
    match v
    case Arr(items) => forall x | x in items :: WellFormed(x)
    case Obj(members) =>
      && (forall m | m in members :: WellFormed(m.value))
      && UniqueKeys(members)
    case _ => true
  }

  predicate UniqueKeys(members: seq<Member>) {
    forall i, j | 0 <= i < j < |members| :: members[i].key != members[j].key
  }

  /** No `undefined` anywhere: what JSON.parse can produce. */
  predicate Defined(v: Value) {
    match v
    case Undefined => false
    case Arr(items) => forall x | x in items :: Defined(x)
    case Obj(members) => forall m | m in members :: Defined(m.value)
    case _ => true
  }

  /** Strict order of strings by code unit, JavaScript's `<`. */
  predicate Less(a: Text, b: Text) {
    if b == [] then false
    else if a == [] then true
    else if a[0] == b[0] then Less(a[1..], b[1..])
    else a[0] < b[0]
  }

  /** A printed object member: its key, and the canonical text of its value. */
  datatype Entry = Entry(key: Text, text: Text)

  function Insert(e: Entry, es: seq<Entry>): (r: seq<Entry>)
    ensures multiset(r) == multiset(es) + multiset{e}
  {
    if es == [] then [e]
    else if Less(es[0].key, e.key) then
      assert es == [es[0]] + es[1..];
      [es[0]] + Insert(e, es[1..])
    else [e] + es
  }

  function SortByKey(es: seq<Entry>): (r: seq<Entry>)
    ensures multiset(r) == multiset(es)
  {
    if es == [] then []
    else
      assert es == [es[0]] + es[1..];
      Insert(es[0], SortByKey(es[1..]))
  }

  /** `parts.join(",")` */
  function Join(parts: seq<Text>): Text {
    if parts == [] then []
    else if |parts| == 1 then parts[0]
    else parts[0] + ([COMMA] + Join(parts[1..]))
  }

  function EntryTexts(es: seq<Entry>): (r: seq<Text>)
    ensures |r| == |es|
  {
    if es == [] then []
    else [Quote(es[0].key) + [COLON] + es[0].text] + EntryTexts(es[1..])
  }

  /** The text `canonicalize` returns for a value it does not throw on. */
  function Print(v: Value): Text
    requires AllFinite(v) && !v.Undefined?
  {
    match v
    case Null => NULL_TEXT
    case Bool(b) => if b then TRUE_TEXT else FALSE_TEXT
    case Num(num) => PrintInt(num.value)
    case Str(text) => Quote(text)
    case Arr(items) => [OPEN_BRACKET] + Join(PrintItems(items)) + [CLOSE_BRACKET]
    case Obj(members) =>
      [OPEN_BRACE] + Join(EntryTexts(SortByKey(PrintMembers(members)))) + [CLOSE_BRACE]
  }

  /** An undefined array item prints as null. */
  function PrintItems(items: seq<Value>): (r: seq<Text>)
    requires forall x | x in items :: AllFinite(x)
    ensures |r| == |items|
  {
    if items == [] then []
    else [if items[0].Undefined? then NULL_TEXT else Print(items[0])] + PrintItems(items[1..])
  }

  /**
   An undefined member is dropped. The source sorts the members before printing their
   values; sorting looks at keys only, so printing first gives the same entries.
   */
  function PrintMembers(members: seq<Member>): (r: seq<Entry>)
    requires forall m | m in members :: AllFinite(m.value)
  {
    if members == [] then []
    else if members[0].value.Undefined? then PrintMembers(members[1..])
    else [Entry(members[0].key, Print(members[0].value))] + PrintMembers(members[1..])
  }

  /** What a call of `canonicalize` does. A bare undefined prints as no string at all. */
  datatype Canonical = Printed(text: Text) | NotText | Threw

  function Canonicalize(v: Value): Canonical {
    if !AllFinite(v) then Threw
    else if v.Undefined? then NotText
    else Printed(Print(v))
  }

  // ---------------------------------------------------------------- equality

  /** The property of that name, undefined when there is none. */
  function Get(members: seq<Member>, key: Text): Value {
    if members == [] then Undefined
    else if members[0].key == key then members[0].value
    else Get(members[1..], key)
  }

  /** `v.key`; None when v is null or undefined, which throws. */
  function Property(v: Value, key: Text): Option<Value> {
    match v
    case Undefined => None
    case Null => None
    case Obj(members) => Some(Get(members, key))
    case _ => Some(Undefined)
  }

  /** `v?.key` */
  function OptionalProperty(v: Value, key: Text): Value {
    var p := Property(v, key);
    if p.Some? then p.value else Undefined
  }

  predicate HasKey(members: seq<Member>, key: Text) {
    exists m | m in members :: m.key == key
  }

  /** Equal up to the order of object members, at every depth. */
  ghost predicate Same(v: Value, w: Value) {
    match v
    case Arr(items) =>
      && w.Arr?
      && |items| == |w.items|
      && forall i | 0 <= i < |items| :: Same(items[i], w.items[i])
    case Obj(members) =>
      && w.Obj?
      && (forall m | m in members :: Same(m.value, Get(w.members, m.key)))
      && (forall n | n in w.members :: HasKey(members, n.key))
    case _ => v == w
  }

  /** JSON.parse(JSON.stringify(v)): undefined members go, undefined items and non-finite numbers become null. */
  function Wire(v: Value): Value {
    match v
    case Undefined => Null
    case Num(NonFinite) => Null
    case Arr(items) => Arr(WireItems(items))
    case Obj(members) => Obj(WireMembers(members))
    case _ => v
  }

  function WireItems(items: seq<Value>): (r: seq<Value>)
    ensures |r| == |items|
  {
    if items == [] then [] else [Wire(items[0])] + WireItems(items[1..])
  }

  function WireMembers(members: seq<Member>): seq<Member> {
    if members == [] then []
    else if members[0].value.Undefined? then WireMembers(members[1..])
    else [Member(members[0].key, Wire(members[0].value))] + WireMembers(members[1..])
  }
}
