/**
 The canonical form is injective up to member order. The proof first shows that the text
 of a value is self-delimiting: it can be cut off the front of any longer text.
 */
module Canonical {
  import opened Json
  import opened Seqs

  // --------------------------------------------------------- strings and digits

  function HexValue(u: CodeUnit): int { if u < 58 then u - 48 else u - 87 }

  /** Reads one escape sequence or plain code unit; the inverse of `EscapeUnit`. */
  function ReadUnit(t: Text): (r: (int, nat))
    requires t != []
  {
    if t[0] != BACKSLASH || |t| < 2 then (t[0], 1)
    else if t[1] == 98 then (8, 2)
    else if t[1] == 116 then (9, 2)
    else if t[1] == 110 then (10, 2)
    else if t[1] == 102 then (12, 2)
    else if t[1] == 114 then (13, 2)
    else if t[1] == 117 && |t| >= 6 then
      (HexValue(t[2]) * 0x1000 + HexValue(t[3]) * 0x100 + HexValue(t[4]) * 16 + HexValue(t[5]), 6)
    else (t[1], 2)
  }

  lemma Hex4Value(u: CodeUnit)
    ensures HexValue(Hex4(u)[0]) * 0x1000 + HexValue(Hex4(u)[1]) * 0x100
      + HexValue(Hex4(u)[2]) * 16 + HexValue(Hex4(u)[3]) == u
  {
    assert u / 0x1000 == u / 0x100 / 16 && u / 0x100 == u / 16 / 16;
  }

  lemma ReadEscapedUnit(u: CodeUnit, r: Text)
    ensures ReadUnit(EscapeUnit(u) + r) == (u, |EscapeUnit(u)|)
  {
    var t := EscapeUnit(u) + r;
    Hex4Value(u);
    assert forall i | 0 <= i < |EscapeUnit(u)| :: t[i] == EscapeUnit(u)[i];
  }

  /** One escaped code unit can be read off the front of a text. */
  lemma EscapeUnitPrefix(u: CodeUnit, v: CodeUnit, r1: Text, r2: Text)
    requires EscapeUnit(u) + r1 == EscapeUnit(v) + r2
    ensures u == v && r1 == r2
  {
    ReadEscapedUnit(u, r1);
    ReadEscapedUnit(v, r2);
    Cancel(EscapeUnit(u), r1, EscapeUnit(v), r2);
  }

  /** The first code unit of an escaped string that is followed by its closing quote. */
  lemma EscapedFirst(s: Text, r: Text)
    ensures var a := EscapeAll(s) + ([QUOTE] + r);
      && (a[0] == QUOTE <==> s == [])
      && (IsHigh(a[0]) <==> StartsWithPair(s))
  {
    if s != [] && !StartsWithPair(s) {
      First(EscapeUnit(s[0]), EscapeAll(s[1..]) + ([QUOTE] + r));
      Assoc(EscapeUnit(s[0]), EscapeAll(s[1..]), [QUOTE] + r);
    }
  }

  lemma PairSplit(s: Text, r: Text)
    requires StartsWithPair(s)
    ensures EscapeAll(s) + r == s[..2] + (EscapeAll(s[2..]) + r)
  {
    assert s[..2] == [s[0], s[1]];
    Assoc([s[0], s[1]], EscapeAll(s[2..]), r);
  }

  lemma UnitSplit(s: Text, r: Text)
    requires s != [] && !StartsWithPair(s)
    ensures EscapeAll(s) + r == EscapeUnit(s[0]) + (EscapeAll(s[1..]) + r)
  {
    Assoc(EscapeUnit(s[0]), EscapeAll(s[1..]), r);
  }

  /** An escaped string, up to its closing quote, can be read off the front of a text. */
  lemma {:induction false} EscapePrefix(s: Text, t: Text, r1: Text, r2: Text)
    requires EscapeAll(s) + ([QUOTE] + r1) == EscapeAll(t) + ([QUOTE] + r2)
    ensures s == t && r1 == r2
    decreases |s|
  {
    EscapedFirst(s, r1);
    EscapedFirst(t, r2);
    if s == [] {
      assert EscapeAll(s) + ([QUOTE] + r1) == [QUOTE] + r1 && EscapeAll(t) + ([QUOTE] + r2) == [QUOTE] + r2;
      Cancel([QUOTE], r1, [QUOTE], r2);
    } else if StartsWithPair(s) {
      PairSplit(s, [QUOTE] + r1);
      PairSplit(t, [QUOTE] + r2);
      Cancel(s[..2], EscapeAll(s[2..]) + ([QUOTE] + r1), t[..2], EscapeAll(t[2..]) + ([QUOTE] + r2));
      EscapePrefix(s[2..], t[2..], r1, r2);
      assert s == s[..2] + s[2..] && t == t[..2] + t[2..];
    } else {
      UnitSplit(s, [QUOTE] + r1);
      UnitSplit(t, [QUOTE] + r2);
      EscapeUnitPrefix(s[0], t[0], EscapeAll(s[1..]) + ([QUOTE] + r1), EscapeAll(t[1..]) + ([QUOTE] + r2));
      EscapePrefix(s[1..], t[1..], r1, r2);
      assert s == [s[0]] + s[1..] && t == [t[0]] + t[1..];
    }
  }

  lemma QuotePrefix(s: Text, t: Text, r1: Text, r2: Text)
    requires Quote(s) + r1 == Quote(t) + r2
    ensures s == t && r1 == r2
  {
    assert Quote(s) + r1 == [QUOTE] + (EscapeAll(s) + ([QUOTE] + r1));
    assert Quote(t) + r2 == [QUOTE] + (EscapeAll(t) + ([QUOTE] + r2));
    Cancel([QUOTE], EscapeAll(s) + ([QUOTE] + r1), [QUOTE], EscapeAll(t) + ([QUOTE] + r2));
    EscapePrefix(s, t, r1, r2);
  }

  ghost predicate NoDigitFirst(r: Text) { r == [] || !IsDigit(r[0]) }

  /** Length of the run of digits a text starts with. */
  function DigitRun(t: Text): nat {
    if t == [] || !IsDigit(t[0]) then 0 else 1 + DigitRun(t[1..])
  }

  lemma {:induction false} DigitRunOf(a: Text, r: Text)
    requires forall u | u in a :: IsDigit(u)
    requires NoDigitFirst(r)
    ensures DigitRun(a + r) == |a|
  {
    if a == [] {
      assert a + r == r;
    } else {
      First(a, r);
      assert a[0] in a;
      DigitRunOf(a[1..], r);
    }
  }

  lemma {:induction false} PrintNatInjective(m: nat, n: nat)
    requires PrintNat(m) == PrintNat(n)
    ensures m == n
  {
    if m >= 10 && n >= 10 {
      Cancel(PrintNat(m / 10), [48 + m % 10], PrintNat(n / 10), [48 + n % 10]);
      PrintNatInjective(m / 10, n / 10);
    }
  }

  lemma PrintNatPrefix(m: nat, n: nat, r1: Text, r2: Text)
    requires PrintNat(m) + r1 == PrintNat(n) + r2 && NoDigitFirst(r1) && NoDigitFirst(r2)
    ensures m == n && r1 == r2
  {
    DigitRunOf(PrintNat(m), r1);
    DigitRunOf(PrintNat(n), r2);
    Cancel(PrintNat(m), r1, PrintNat(n), r2);
    PrintNatInjective(m, n);
  }

  lemma PrintNatFirst(n: nat, r: Text)
    ensures IsDigit((PrintNat(n) + r)[0])
  {
    assert PrintNat(n)[0] in PrintNat(n);
  }

  lemma PrintIntPrefix(m: int, n: int, r1: Text, r2: Text)
    requires PrintInt(m) + r1 == PrintInt(n) + r2 && NoDigitFirst(r1) && NoDigitFirst(r2)
    ensures m == n && r1 == r2
  {
    if m >= 0 { PrintNatFirst(m, r1); } else { Assoc([MINUS], PrintNat(-m), r1); }
    if n >= 0 { PrintNatFirst(n, r2); } else { Assoc([MINUS], PrintNat(-n), r2); }
    if m < 0 {
      Cancel([MINUS], PrintNat(-m) + r1, [MINUS], PrintNat(-n) + r2);
      PrintNatPrefix(-m, -n, r1, r2);
    } else {
      PrintNatPrefix(m, n, r1, r2);
    }
  }

  // ------------------------------------------------------ values delimit themselves

  ghost predicate Printable(v: Value) { AllFinite(v) && !v.Undefined? }

  /**
   Whatever follows two texts (other than a digit), they can be told apart: if the longer
   texts agree then so do the two fronts.
   */
  ghost predicate Delimited(p: Text, q: Text) {
    forall s, t :: p + s == q + t && NoDigitFirst(s) && NoDigitFirst(t) ==> p == q && s == t
  }

  /** The kind of a value shows in its first character. */
  function Kind(v: Value): int {
    match v
    case Undefined => 0 case Null => 1 case Bool(b) => if b then 2 else 3 case Num(_) => 4
    case Str(_) => 5 case Arr(_) => 6 case Obj(_) => 7
  }

  function KindOfFirst(u: CodeUnit): int {
    if u == 110 then 1 else if u == 116 then 2 else if u == 102 then 3
    else if u == MINUS || IsDigit(u) then 4
    else if u == QUOTE then 5 else if u == OPEN_BRACKET then 6 else if u == OPEN_BRACE then 7 else 0
  }

  lemma PrintIntFirst(n: int)
    ensures PrintInt(n) != [] && (PrintInt(n)[0] == MINUS || IsDigit(PrintInt(n)[0]))
  {
    if n >= 0 { assert PrintNat(n)[0] in PrintNat(n); }
  }

  lemma FirstCharacter(v: Value)
    requires Printable(v)
    ensures Print(v) != [] && KindOfFirst(Print(v)[0]) == Kind(v) && Kind(v) != 0
  {
    hide SortByKey, PrintMembers, PrintItems, EscapeAll;
    if v.Num? { PrintIntFirst(v.num.value); }
  }

  lemma DifferentKinds(v: Value, w: Value)
    requires Printable(v) && Printable(w) && Kind(v) != Kind(w)
    ensures Delimited(Print(v), Print(w))
  {
    FirstCharacter(v);
    FirstCharacter(w);
    forall s, t ensures Print(v) + s != Print(w) + t {
      First(Print(v), s);
      First(Print(w), t);
    }
  }

  /** The rest of a comma-joined list, after its first element. */
  function Rest(parts: seq<Text>, close: CodeUnit): Text
    requires parts != []
  {
    if |parts| == 1 then [close] else [COMMA] + (Join(parts[1..]) + [close])
  }

  lemma JoinSplit(parts: seq<Text>, close: CodeUnit, r: Text)
    requires parts != []
    ensures Join(parts) + [close] + r == parts[0] + (Rest(parts, close) + r)
  {
    if |parts| == 1 {
      Assoc(parts[0], [close], r);
    } else {
      var j := Join(parts[1..]);
      Assoc(parts[0], [COMMA] + j, [close]);
      Assoc([COMMA], j, [close]);
      Assoc(parts[0], Rest(parts, close), r);
    }
  }

  ghost predicate Elements(parts: seq<Text>, close: CodeUnit) {
    && close in {CLOSE_BRACKET, CLOSE_BRACE}
    && forall p | p in parts :: p != [] && p[0] != close
  }

  lemma JoinFirst(parts: seq<Text>, close: CodeUnit, r: Text)
    requires Elements(parts, close)
    ensures (Join(parts) + [close] + r)[0] == close <==> parts == []
  {
    if parts != [] {
      JoinSplit(parts, close, r);
      assert parts[0] in parts;
      First(parts[0], Rest(parts, close) + r);
    }
  }

  /** Two closed comma-joined lists that agree have the same elements. */
  lemma {:induction false} JoinPrefix(ps: seq<Text>, qs: seq<Text>, close: CodeUnit, r1: Text, r2: Text)
    requires Elements(ps, close) && Elements(qs, close)
    requires forall p, q | p in ps && q in qs :: Delimited(p, q)
    requires Join(ps) + [close] + r1 == Join(qs) + [close] + r2
    ensures ps == qs && r1 == r2
    decreases |ps|, 1
  {
    hide Delimited, Rest;
    JoinFirst(ps, close, r1);
    JoinFirst(qs, close, r2);
    if ps == [] {
      assert Join(ps) + [close] == [close] && Join(qs) + [close] == [close];
      Cancel([close], r1, [close], r2);
    } else {
      FirstElement(ps, qs, close, r1, r2);
      RestPrefix(ps, qs, close, r1, r2);
      assert ps == [ps[0]] + ps[1..] && qs == [qs[0]] + qs[1..];
    }
  }

  lemma RestStarts(parts: seq<Text>, close: CodeUnit, r: Text)
    requires parts != [] && close in {CLOSE_BRACKET, CLOSE_BRACE}
    ensures NoDigitFirst(Rest(parts, close) + r)
  {
    First(Rest(parts, close), r);
  }

  lemma FirstElement(ps: seq<Text>, qs: seq<Text>, close: CodeUnit, r1: Text, r2: Text)
    requires ps != [] && qs != [] && close in {CLOSE_BRACKET, CLOSE_BRACE}
    requires Delimited(ps[0], qs[0])
    requires Join(ps) + [close] + r1 == Join(qs) + [close] + r2
    ensures ps[0] == qs[0] && Rest(ps, close) + r1 == Rest(qs, close) + r2
  {
    JoinSplit(ps, close, r1);
    JoinSplit(qs, close, r2);
    RestStarts(ps, close, r1);
    RestStarts(qs, close, r2);
  }

  lemma {:induction false} RestPrefix(ps: seq<Text>, qs: seq<Text>, close: CodeUnit, r1: Text, r2: Text)
    requires ps != [] && qs != [] && Elements(ps, close) && Elements(qs, close)
    requires forall p, q | p in ps && q in qs :: Delimited(p, q)
    requires Rest(ps, close) + r1 == Rest(qs, close) + r2
    ensures ps[1..] == qs[1..] && r1 == r2
    decreases |ps|, 0
  {
    First(Rest(ps, close), r1);
    First(Rest(qs, close), r2);
    if |ps| == 1 {
      Cancel([close], r1, [close], r2);
    } else {
      Assoc([COMMA], Join(ps[1..]) + [close], r1);
      Assoc([COMMA], Join(qs[1..]) + [close], r2);
      Cancel([COMMA], Join(ps[1..]) + [close] + r1, [COMMA], Join(qs[1..]) + [close] + r2);
      assert (forall p | p in ps[1..] :: p in ps) && (forall q | q in qs[1..] :: q in qs);
      JoinPrefix(ps[1..], qs[1..], close, r1, r2);
    }
  }

  /** Printed members that come from an object with the given members. */
  ghost predicate Prints(m: Member, e: Entry) {
    Printable(m.value) && e == Entry(m.key, Print(m.value))
  }

  function EntryText(e: Entry): Text { Quote(e.key) + [COLON] + e.text }

  lemma EntrySplit(e: Entry, s: Text)
    ensures EntryText(e) + s == Quote(e.key) + ([COLON] + (e.text + s))
  {
  }

  lemma EntryPrefix(e: Entry, f: Entry, s: Text, t: Text)
    requires Delimited(e.text, f.text) && NoDigitFirst(s) && NoDigitFirst(t)
    requires EntryText(e) + s == EntryText(f) + t
    ensures e == f && s == t
  {
    EntrySplit(e, s);
    EntrySplit(f, t);
    QuotePrefix(e.key, f.key, [COLON] + (e.text + s), [COLON] + (f.text + t));
    Cancel([COLON], e.text + s, [COLON], f.text + t);
  }

  lemma EntryDelimited(e: Entry, f: Entry)
    requires Delimited(e.text, f.text)
    ensures Delimited(EntryText(e), EntryText(f))
  {
    forall s, t | EntryText(e) + s == EntryText(f) + t && NoDigitFirst(s) && NoDigitFirst(t)
      ensures e == f && s == t
    {
      EntryPrefix(e, f, s, t);
    }
  }

  lemma {:induction false} EntryTextsAt(es: seq<Entry>)
    ensures forall i | 0 <= i < |es| :: EntryTexts(es)[i] == EntryText(es[i])
  {
    if es != [] { EntryTextsAt(es[1..]); }
  }

  lemma EntriesDelimited(es: seq<Entry>, fs: seq<Entry>)
    requires forall e, f | e in es && f in fs :: Delimited(e.text, f.text)
    ensures forall p, q | p in EntryTexts(es) && q in EntryTexts(fs) :: Delimited(p, q)
  {
    EntryTextsAt(es);
    EntryTextsAt(fs);
    forall p, q | p in EntryTexts(es) && q in EntryTexts(fs) ensures Delimited(p, q) {
      var i :| 0 <= i < |es| && EntryTexts(es)[i] == p;
      var j :| 0 <= j < |fs| && EntryTexts(fs)[j] == q;
      EntryDelimited(es[i], fs[j]);
    }
  }

  lemma EntriesAreElements(es: seq<Entry>)
    ensures Elements(EntryTexts(es), CLOSE_BRACE)
  {
    EntryTextsAt(es);
    forall p | p in EntryTexts(es) ensures p != [] && p[0] != CLOSE_BRACE {
      var i :| 0 <= i < |es| && EntryTexts(es)[i] == p;
    }
  }

  /** Lists of printed members that agree as closed texts are equal. */
  lemma EntriesPrefix(es: seq<Entry>, fs: seq<Entry>, r1: Text, r2: Text)
    requires forall e, f | e in es && f in fs :: Delimited(e.text, f.text)
    requires Join(EntryTexts(es)) + [CLOSE_BRACE] + r1 == Join(EntryTexts(fs)) + [CLOSE_BRACE] + r2
    ensures es == fs && r1 == r2
  {
    EntryTextsAt(es);
    EntryTextsAt(fs);
    EntriesDelimited(es, fs);
    EntriesAreElements(es);
    EntriesAreElements(fs);
    JoinPrefix(EntryTexts(es), EntryTexts(fs), CLOSE_BRACE, r1, r2);
    forall i | 0 <= i < |es| ensures es[i] == fs[i] {
      EntryPrefix(es[i], fs[i], [], []);
    }
  }

  function Entries(members: seq<Member>): seq<Entry>
    requires forall m | m in members :: AllFinite(m.value)
  {
    SortByKey(PrintMembers(members))
  }

  /** A canonical text can be cut off the front of a longer text in only one way. */
  lemma {:induction false} PrefixFree(v: Value, w: Value)
    requires Printable(v) && Printable(w)
    ensures Delimited(Print(v), Print(w))
    decreases v
  {
    if Kind(v) != Kind(w) {
      DifferentKinds(v, w);
    } else if v.Arr? {
      ItemsDelimited(v, w);
      ArrayDelimited(v, w);
    } else if v.Obj? {
      MembersDelimited(v, w);
      ObjectDelimited(v, w);
    } else {
      ScalarDelimited(v, w);
    }
  }

  lemma ScalarDelimited(v: Value, w: Value)
    requires Printable(v) && Printable(w) && Kind(v) == Kind(w) && !v.Arr? && !v.Obj?
    ensures Delimited(Print(v), Print(w))
  {
    forall s, t | Print(v) + s == Print(w) + t && NoDigitFirst(s) && NoDigitFirst(t)
      ensures Print(v) == Print(w) && s == t
    {
      if v.Num? {
        PrintIntPrefix(v.num.value, w.num.value, s, t);
      } else if v.Str? {
        QuotePrefix(v.text, w.text, s, t);
      } else {
        Cancel(Print(v), s, Print(w), t);
      }
    }
  }

  lemma {:induction false} ItemsDelimited(v: Value, w: Value)
    requires Printable(v) && Printable(w) && v.Arr? && w.Arr?
    ensures forall p, q | p in PrintItems(v.items) && q in PrintItems(w.items) :: Delimited(p, q)
    decreases v, 0
  {
    forall p, q | p in PrintItems(v.items) && q in PrintItems(w.items) ensures Delimited(p, q) {
      var i :| 0 <= i < |v.items| && PrintItems(v.items)[i] == p;
      var j :| 0 <= j < |w.items| && PrintItems(w.items)[j] == q;
      PrintedItem(v.items, i);
      PrintedItem(w.items, j);
      assert v.items[i] in v.items && w.items[j] in w.items;
      var y := if w.items[j].Undefined? then Null else w.items[j];
      if v.items[i].Undefined? {
        if y.Null? { ScalarDelimited(Null, y); } else { DifferentKinds(Null, y); }
      } else {
        PrefixFree(v.items[i], y);
      }
    }
  }

  lemma ItemsAreElements(items: seq<Value>)
    requires forall x | x in items :: AllFinite(x)
    ensures Elements(PrintItems(items), CLOSE_BRACKET)
  {
    forall p | p in PrintItems(items) ensures p != [] && p[0] != CLOSE_BRACKET {
      var i :| 0 <= i < |items| && PrintItems(items)[i] == p;
      PrintedItem(items, i);
      assert items[i] in items;
      if !items[i].Undefined? { FirstCharacter(items[i]); }
    }
  }

  lemma ArraySplit(v: Value, s: Text)
    requires Printable(v) && v.Arr?
    ensures Print(v) + s == [OPEN_BRACKET] + (Join(PrintItems(v.items)) + [CLOSE_BRACKET] + s)
  {
    var j := Join(PrintItems(v.items));
    Assoc([OPEN_BRACKET], j, [CLOSE_BRACKET]);
    Assoc([OPEN_BRACKET], j + [CLOSE_BRACKET], s);
  }

  lemma ArrayPrefix(v: Value, w: Value, s: Text, t: Text)
    requires Printable(v) && Printable(w) && v.Arr? && w.Arr?
    requires forall p, q | p in PrintItems(v.items) && q in PrintItems(w.items) :: Delimited(p, q)
    requires Print(v) + s == Print(w) + t
    ensures PrintItems(v.items) == PrintItems(w.items) && s == t
  {
    var ps, qs := PrintItems(v.items), PrintItems(w.items);
    ArraySplit(v, s);
    ArraySplit(w, t);
    Cancel([OPEN_BRACKET], Join(ps) + [CLOSE_BRACKET] + s, [OPEN_BRACKET], Join(qs) + [CLOSE_BRACKET] + t);
    ItemsAreElements(v.items);
    ItemsAreElements(w.items);
    JoinPrefix(ps, qs, CLOSE_BRACKET, s, t);
  }

  lemma ArrayDelimited(v: Value, w: Value)
    requires Printable(v) && Printable(w) && v.Arr? && w.Arr?
    requires forall p, q | p in PrintItems(v.items) && q in PrintItems(w.items) :: Delimited(p, q)
    ensures Delimited(Print(v), Print(w))
  {
    forall s, t | Print(v) + s == Print(w) + t ensures Print(v) == Print(w) && s == t {
      ArrayPrefix(v, w, s, t);
    }
  }

  lemma {:induction false} MembersDelimited(v: Value, w: Value)
    requires Printable(v) && Printable(w) && v.Obj? && w.Obj?
    ensures forall e, f | e in Entries(v.members) && f in Entries(w.members) :: Delimited(e.text, f.text)
    decreases v, 0
  {
    forall e, f | e in Entries(v.members) && f in Entries(w.members) ensures Delimited(e.text, f.text) {
      SameElements(PrintMembers(v.members), e);
      SameElements(PrintMembers(w.members), f);
      var m := MemberOfEntry(v.members, e);
      var n := MemberOfEntry(w.members, f);
      PrefixFree(m.value, n.value);
    }
  }

  lemma ObjectSplit(v: Value, s: Text)
    requires Printable(v) && v.Obj?
    ensures Print(v) + s == [OPEN_BRACE] + (Join(EntryTexts(Entries(v.members))) + [CLOSE_BRACE] + s)
  {
    var j := Join(EntryTexts(Entries(v.members)));
    Assoc([OPEN_BRACE], j, [CLOSE_BRACE]);
    Assoc([OPEN_BRACE], j + [CLOSE_BRACE], s);
  }

  lemma ObjectPrefix(v: Value, w: Value, s: Text, t: Text)
    requires Printable(v) && Printable(w) && v.Obj? && w.Obj?
    requires forall e, f | e in Entries(v.members) && f in Entries(w.members) :: Delimited(e.text, f.text)
    requires Print(v) + s == Print(w) + t
    ensures Entries(v.members) == Entries(w.members) && s == t
  {
    var es, fs := Entries(v.members), Entries(w.members);
    ObjectSplit(v, s);
    ObjectSplit(w, t);
    Cancel([OPEN_BRACE], Join(EntryTexts(es)) + [CLOSE_BRACE] + s,
           [OPEN_BRACE], Join(EntryTexts(fs)) + [CLOSE_BRACE] + t);
    EntriesPrefix(es, fs, s, t);
  }

  lemma ObjectDelimited(v: Value, w: Value)
    requires Printable(v) && Printable(w) && v.Obj? && w.Obj?
    requires forall e, f | e in Entries(v.members) && f in Entries(w.members) :: Delimited(e.text, f.text)
    ensures Delimited(Print(v), Print(w))
  {
    forall s, t | Print(v) + s == Print(w) + t ensures Print(v) == Print(w) && s == t {
      ObjectPrefix(v, w, s, t);
    }
  }

  // ------------------------------------------------------------ entries of an object

  lemma SameElements(es: seq<Entry>, e: Entry)
    ensures e in SortByKey(es) <==> e in es
  {
    assert e in SortByKey(es) <==> e in multiset(SortByKey(es));
    assert e in es <==> e in multiset(es);
  }

  lemma {:induction false} EntryOfMember(members: seq<Member>, m: Member)
    requires forall x | x in members :: AllFinite(x.value)
    requires m in members && !m.value.Undefined?
    ensures Entry(m.key, Print(m.value)) in PrintMembers(members)
  {
    if m != members[0] {
      assert m in members[1..];
      EntryOfMember(members[1..], m);
    }
  }

  lemma {:induction false} MemberOfEntry(members: seq<Member>, e: Entry) returns (m: Member)
    requires forall x | x in members :: AllFinite(x.value)
    requires e in PrintMembers(members)
    ensures m in members && Prints(m, e)
  {
    if !members[0].value.Undefined? && e == Entry(members[0].key, Print(members[0].value)) {
      m := members[0];
    } else {
      m := MemberOfEntry(members[1..], e);
    }
  }

  // ------------------------------------------------------------------- injectivity

  /** A value that JSON.parse can return, with finite numbers. */
  ghost predicate Plain(v: Value) { AllFinite(v) && Defined(v) && WellFormed(v) }

  /** Two undefined-free values with the same canonical text are equal up to member order. */
  lemma {:induction false} Injective(v: Value, w: Value)
    requires Plain(v) && Plain(w) && Print(v) == Print(w)
    ensures Same(v, w)
    decreases v
  {
    FirstCharacter(v);
    FirstCharacter(w);
    if v.Arr? {
      ItemsDelimited(v, w);
      ArrayPrefix(v, w, [], []);
      assert |PrintItems(v.items)| == |PrintItems(w.items)|;
      forall i | 0 <= i < |v.items| ensures Same(v.items[i], w.items[i]) {
        PrintedItem(v.items, i);
        PrintedItem(w.items, i);
        assert v.items[i] in v.items && w.items[i] in w.items;
        Injective(v.items[i], w.items[i]);
      }
    } else if v.Obj? {
      MembersDelimited(v, w);
      ObjectPrefix(v, w, [], []);
      forall m | m in v.members ensures Same(m.value, Get(w.members, m.key)) {
        PlainMember(v, m);
        var n := Counterpart(v.members, w.members, m);
        PlainMember(w, n);
        GetMember(w.members, n);
        Injective(m.value, n.value);
      }
      forall n | n in w.members ensures HasKey(v.members, n.key) {
        PlainMember(w, n);
        var m := Counterpart(w.members, v.members, n);
      }
    } else {
      assert Print(v) + [] == Print(w) + [];
      match v
      case Num(num) => PrintIntPrefix(num.value, w.num.value, [], []);
      case Str(text) => QuotePrefix(text, w.text, [], []);
      case _ =>
    }
  }

  lemma PlainMember(v: Value, m: Member)
    requires Plain(v) && v.Obj? && m in v.members
    ensures Plain(m.value) && !m.value.Undefined?
  {
  }

  lemma {:induction false} GetMember(members: seq<Member>, m: Member)
    requires UniqueKeys(members) && m in members
    ensures Get(members, m.key) == m.value
  {
    if m != members[0] { GetMember(members[1..], m); }
  }

  lemma {:induction false} MemberOfGet(members: seq<Member>, key: Text) returns (m: Member)
    requires Get(members, key) != Undefined
    ensures m in members && m == Member(key, Get(members, key))
  {
    if members[0].key == key { m := members[0]; } else { m := MemberOfGet(members[1..], key); }
  }

  lemma {:induction false} PrintedItem(items: seq<Value>, i: nat)
    requires i < |items| && forall x | x in items :: AllFinite(x)
    ensures PrintItems(items)[i] == if items[i].Undefined? then NULL_TEXT else Print(items[i])
  {
    if i > 0 { PrintedItem(items[1..], i - 1); }
  }

  /** Objects with the same sorted entries have, for each member of one, its twin in the other. */
  lemma Counterpart(members: seq<Member>, others: seq<Member>, m: Member) returns (n: Member)
    requires forall x | x in members :: AllFinite(x.value)
    requires forall x | x in others :: AllFinite(x.value)
    requires Entries(members) == Entries(others)
    requires m in members && !m.value.Undefined?
    ensures n in others && Printable(n.value) && n.key == m.key && Print(n.value) == Print(m.value)
  {
    var e := Entry(m.key, Print(m.value));
    EntryOfMember(members, m);
    SameElements(PrintMembers(members), e);
    SameElements(PrintMembers(others), e);
    n := MemberOfEntry(others, e);
  }

  // ------------------------------------------- equal up to order prints the same text

  lemma {:induction false} LessTotal(a: Text, b: Text)
    ensures Less(a, b) || Less(b, a) || a == b
    ensures !(Less(a, b) && Less(b, a)) && !Less(a, a)
  {
    if a != [] && b != [] {
      LessTotal(a[1..], b[1..]);
      assert a == [a[0]] + a[1..] && b == [b[0]] + b[1..];
      LessTotal(a[1..], a[1..]);
    } else if a != [] {
      LessTotal(a[1..], a[1..]);
    }
  }

  lemma {:induction false} LessTransitive(a: Text, b: Text, c: Text)
    requires Less(a, b) && Less(b, c)
    ensures Less(a, c)
  {
    if a != [] && a[0] == b[0] && b[0] == c[0] {
      LessTransitive(a[1..], b[1..], c[1..]);
    }
  }

  ghost predicate Sorted(es: seq<Entry>) {
    forall i, j | 0 <= i < j < |es| :: Less(es[i].key, es[j].key)
  }

  ghost predicate DistinctKeys(es: seq<Entry>) {
    forall i, j | 0 <= i < j < |es| :: es[i].key != es[j].key
  }

  lemma {:induction false} InsertSorted(e: Entry, es: seq<Entry>)
    requires Sorted(es) && forall f | f in es :: f.key != e.key
    ensures Sorted(Insert(e, es))
  {
    if es != [] {
      var r := Insert(e, es);
      LessTotal(es[0].key, e.key);
      if Less(es[0].key, e.key) {
        InsertSorted(e, es[1..]);
        forall j | 1 <= j < |r| ensures Less(r[0].key, r[j].key) {
          assert r[j] in multiset(Insert(e, es[1..]));
          assert r[j] == e || r[j] in es[1..];
        }
      } else {
        assert es[0] in es;
        forall j | 1 <= j < |r| ensures Less(r[0].key, r[j].key) {
          if j > 1 { LessTransitive(e.key, es[0].key, es[j - 1].key); }
        }
      }
    }
  }

  lemma {:induction false} SortIsSorted(es: seq<Entry>)
    requires DistinctKeys(es)
    ensures Sorted(SortByKey(es))
  {
    if es != [] {
      SortIsSorted(es[1..]);
      forall f | f in SortByKey(es[1..]) ensures f.key != es[0].key {
        SameElements(es[1..], f);
      }
      InsertSorted(es[0], SortByKey(es[1..]));
    }
  }

  /** A strictly sorted list is determined by its elements. */
  lemma {:induction false} SortedUnique(es: seq<Entry>, fs: seq<Entry>)
    requires Sorted(es) && Sorted(fs)
    requires forall e :: e in es <==> e in fs
    ensures es == fs
  {
    if es == [] {
      assert forall e :: e in multiset(fs) <==> e in fs;
      assert multiset(fs) == multiset{};
      assert |fs| == |multiset(fs)| == 0;
    } else {
      assert es[0] in es;
      assert es[0] in fs;
      assert fs[0] in es;
      LessTotal(es[0].key, fs[0].key);
      assert es[0] == fs[0];
      forall e ensures e in es[1..] <==> e in fs[1..] {
        LessTotal(es[0].key, es[0].key);
        assert e in es <==> e == es[0] || e in es[1..];
        assert e in fs <==> e == fs[0] || e in fs[1..];
      }
      SortedUnique(es[1..], fs[1..]);
    }
  }

  lemma {:induction false} PrintedKeysDistinct(members: seq<Member>)
    requires forall x | x in members :: AllFinite(x.value)
    requires UniqueKeys(members)
    ensures DistinctKeys(PrintMembers(members))
  {
    if members != [] {
      PrintedKeysDistinct(members[1..]);
      var rest := PrintMembers(members[1..]);
      forall i | 0 <= i < |rest| ensures rest[i].key != members[0].key {
        var m := MemberOfEntry(members[1..], rest[i]);
      }
    }
  }

  /** Values equal up to member order print the same text. */
  lemma {:induction false} SamePrints(v: Value, w: Value)
    requires Plain(v) && Plain(w) && Same(v, w)
    ensures Print(v) == Print(w)
    decreases v, 2
  {
    if v.Arr? {
      SameItems(v, w);
    } else if v.Obj? {
      SameSortedEntries(v, w);
    }
  }

  lemma {:induction false} SameItems(v: Value, w: Value)
    requires Plain(v) && Plain(w) && v.Arr? && Same(v, w)
    ensures PrintItems(v.items) == PrintItems(w.items)
    decreases v, 1
  {
    forall i | 0 <= i < |v.items| ensures PrintItems(v.items)[i] == PrintItems(w.items)[i] {
      PrintedItem(v.items, i);
      PrintedItem(w.items, i);
      assert v.items[i] in v.items && w.items[i] in w.items;
      assert Plain(v.items[i]) && Plain(w.items[i]);
      SamePrints(v.items[i], w.items[i]);
    }
  }

  lemma {:induction false} SameSortedEntries(v: Value, w: Value)
    requires Plain(v) && Plain(w) && v.Obj? && w.Obj? && Same(v, w)
    ensures Entries(v.members) == Entries(w.members)
    decreases v, 1
  {
    forall e ensures e in Entries(v.members) <==> e in Entries(w.members) {
      SameElements(PrintMembers(v.members), e);
      SameElements(PrintMembers(w.members), e);
      SameEntries(v, w, e);
    }
    PrintedKeysDistinct(v.members);
    PrintedKeysDistinct(w.members);
    SortIsSorted(PrintMembers(v.members));
    SortIsSorted(PrintMembers(w.members));
    SortedUnique(Entries(v.members), Entries(w.members));
  }

  lemma {:induction false} SameEntries(v: Value, w: Value, e: Entry)
    requires Plain(v) && Plain(w) && v.Obj? && w.Obj? && Same(v, w)
    ensures e in PrintMembers(v.members) <==> e in PrintMembers(w.members)
    decreases v, 0
  {
    if e in PrintMembers(v.members) {
      var m := MemberOfEntry(v.members, e);
      PlainMember(v, m);
      var n := MemberOfGet(w.members, m.key);
      PlainMember(w, n);
      SamePrints(m.value, n.value);
      EntryOfMember(w.members, n);
    }
    if e in PrintMembers(w.members) {
      var n := MemberOfEntry(w.members, e);
      var m :| m in v.members && m.key == n.key;
      GetMember(w.members, n);
      PlainMember(v, m);
      PlainMember(w, n);
      SamePrints(m.value, n.value);
      EntryOfMember(v.members, m);
    }
  }

  /** The canonical text identifies a value, up to member order and nothing else. */
  lemma CanonicalIffSame(v: Value, w: Value)
    requires Plain(v) && Plain(w)
    ensures Canonicalize(v) == Canonicalize(w) <==> Same(v, w)
  {
    if Same(v, w) { SamePrints(v, w); }
    if Print(v) == Print(w) { Injective(v, w); }
  }

  // --------------------------------------------------------------------- wire form

  /** Sending a value as JSON does not change its canonical text. */
  lemma {:induction false} WirePrints(v: Value)
    requires AllFinite(v) && !v.Undefined?
    ensures AllFinite(Wire(v)) && !Wire(v).Undefined? && Print(Wire(v)) == Print(v)
    decreases v
  {
    match v
    case Arr(items) => WireItemsPrint(items);
    case Obj(members) => WireMembersPrint(members);
    case _ =>
  }

  lemma {:induction false} WireItemsPrint(items: seq<Value>)
    requires forall x | x in items :: AllFinite(x)
    ensures forall x | x in WireItems(items) :: AllFinite(x)
    ensures PrintItems(WireItems(items)) == PrintItems(items)
    decreases items
  {
    if items != [] {
      if !items[0].Undefined? { WirePrints(items[0]); }
      WireItemsPrint(items[1..]);
    }
  }

  lemma {:induction false} WireMembersPrint(members: seq<Member>)
    requires forall m | m in members :: AllFinite(m.value)
    ensures forall m | m in WireMembers(members) :: AllFinite(m.value)
    ensures PrintMembers(WireMembers(members)) == PrintMembers(members)
    decreases members
  {
    if members != [] {
      if !members[0].value.Undefined? { WirePrints(members[0].value); }
      WireMembersPrint(members[1..]);
    }
  }

  /** What arrives is a value JSON.parse can return. */
  lemma {:induction false} WirePlain(v: Value)
    requires AllFinite(v) && WellFormed(v)
    ensures Plain(Wire(v))
    decreases v
  {
    match v
    case Arr(items) => WireItemsPlain(items);
    case Obj(members) => WireMembersPlain(members);
    case _ =>
  }

  lemma {:induction false} WireItemsPlain(items: seq<Value>)
    requires forall x | x in items :: AllFinite(x) && WellFormed(x)
    ensures forall x | x in WireItems(items) :: Plain(x)
    decreases items
  {
    if items != [] {
      WirePlain(items[0]);
      WireItemsPlain(items[1..]);
    }
  }

  lemma {:induction false} WireMembersPlain(members: seq<Member>)
    requires forall m | m in members :: AllFinite(m.value) && WellFormed(m.value)
    requires UniqueKeys(members)
    ensures forall m | m in WireMembers(members) :: Plain(m.value) && HasKey(members, m.key)
    ensures UniqueKeys(WireMembers(members))
    decreases members
  {
    if members != [] {
      WirePlain(members[0].value);
      WireMembersPlain(members[1..]);
      assert HasKey(members, members[0].key);
      var rest := WireMembers(members[1..]);
      forall i | 0 <= i < |rest| ensures rest[i].key != members[0].key {
        assert rest[i] in rest;
        assert HasKey(members[1..], rest[i].key);
      }
      forall m | m in rest ensures HasKey(members, m.key) {
        var n :| n in members[1..] && n.key == m.key;
        assert n in members;
      }
    }
  }
}
