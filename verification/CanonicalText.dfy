/**
 What canonical text looks like: members in ascending order of their keys, compared by code
 unit (section 3.2.3 of RFC 8785), and the literals, separators and brackets of JSON.
 */
module CanonicalText {
  import opened Json
  import opened Canonical

  /** The first difference decides, by the smaller code unit; a text comes before its extensions. */
  ghost predicate Before(a: Text, b: Text) {
    || (|a| < |b| && a == b[..|a|])
    || exists k :: DiffersAt(a, b, k)
  }

  /** The first difference is here, and the first text has the smaller code unit. */
  predicate DiffersAt(a: Text, b: Text, k: int) { 0 <= k < |a| && k < |b| && a[..k] == b[..k] && a[k] < b[k] }

  lemma {:induction false} LessIsBefore(a: Text, b: Text)
    requires Less(a, b)
    ensures Before(a, b)
  {
    if a == [] {
      assert b[..0] == [];
    } else if a[0] == b[0] {
      LessIsBefore(a[1..], b[1..]);
      if |a[1..]| < |b[1..]| && a[1..] == b[1..][..|a[1..]|] {
        assert a == [a[0]] + a[1..] && b[..|a|] == [b[0]] + b[1..][..|a[1..]|];
      } else {
        var k :| DiffersAt(a[1..], b[1..], k);
        assert a[..k + 1] == [a[0]] + a[1..][..k] && b[..k + 1] == [b[0]] + b[1..][..k];
        assert DiffersAt(a, b, k + 1);
      }
    } else {
      assert DiffersAt(a, b, 0);
    }
  }

  /** The entries of an object's text: those of its defined members, in ascending order of keys. */
  ghost predicate Ascending(es: seq<Entry>) {
    forall i, j | 0 <= i < j < |es| :: Before(es[i].key, es[j].key)
  }

  /**
   An object prints as its defined members between braces, each once, whatever their order,
   with keys ascending by code unit.
   */
  lemma MembersAscend(members: seq<Member>)
    requires UniqueKeys(members) && forall m | m in members :: AllFinite(m.value)
    ensures exists es :: Ascending(es) && IsPrinted(members, es)
  {
    hide Less, Before;
    var es := SortByKey(PrintMembers(members));
    PrintedKeysDistinct(members);
    SortIsSorted(PrintMembers(members));
    forall i, j | 0 <= i < j < |es| ensures Before(es[i].key, es[j].key) {
      LessIsBefore(es[i].key, es[j].key);
    }
    forall m | m in members && !m.value.Undefined? ensures Entry(m.key, Print(m.value)) in es {
      EntryOfMember(members, m);
      SameElements(PrintMembers(members), Entry(m.key, Print(m.value)));
    }
    forall e | e in es ensures exists m :: m in members && IsEntryOf(m, e) {
      SameElements(PrintMembers(members), e);
      var m := MemberOfEntry(members, e);
      assert IsEntryOf(m, e);
    }
    assert Ascending(es) && IsPrinted(members, es);
  }

  predicate IsEntryOf(m: Member, e: Entry)
    requires AllFinite(m.value)
  {
    !m.value.Undefined? && e == Entry(m.key, Print(m.value))
  }

  /** The text of the object consists of these entries, which are its defined members. */
  ghost predicate IsPrinted(members: seq<Member>, es: seq<Entry>)
    requires forall m | m in members :: AllFinite(m.value)
  {
    && Print(Obj(members)) == [OPEN_BRACE] + Join(EntryTexts(es)) + [CLOSE_BRACE]
    && (forall m | m in members && !m.value.Undefined? :: Entry(m.key, Print(m.value)) in es)
    && (forall e | e in es :: exists m :: m in members && IsEntryOf(m, e))
  }

  // -------------------------------------------------------------------- JSON as it is

  function Unit(c: char): CodeUnit { if c < 128 as char then c as int else 0 }

  /** The literals, a number, and a string with what must be escaped and what must not. */
  lemma ScalarsPrint()
    ensures Print(Null) == [Unit('n'), Unit('u'), Unit('l'), Unit('l')]
    ensures Print(Bool(true)) == [Unit('t'), Unit('r'), Unit('u'), Unit('e')]
    ensures Print(Bool(false)) == [Unit('f'), Unit('a'), Unit('l'), Unit('s'), Unit('e')]
    ensures Print(Num(Finite(-10))) == [Unit('-'), Unit('1'), Unit('0')]
    ensures Print(Str([10, 34, 0xE9])) == [Unit('"'), Unit('\\'), Unit('n'), Unit('\\'), Unit('"'), 0xE9, Unit('"')]
  {
    assert PrintNat(1) == [49] && PrintNat(10) == PrintNat(1) + [48];
    assert EscapeAll([0xE9]) == [0xE9] + EscapeAll([]);
    assert EscapeAll([34, 0xE9]) == [BACKSLASH, QUOTE] + EscapeAll([0xE9]);
    assert [10, 34, 0xE9][1..] == [34, 0xE9] && [34, 0xE9][1..] == [0xE9];
  }

  lemma JoinMore(first: Text, rest: seq<Text>)
    requires rest != []
    ensures Join([first] + rest) == first + ([Unit(',')] + Join(rest))
  {
    assert ([first] + rest)[1..] == rest;
  }

  /** Items stand between brackets with commas between them, an undefined one as null. */
  lemma TwoItems(v: Value, w: Value)
    requires AllFinite(v) && !v.Undefined? && AllFinite(w)
    ensures Print(Arr([v, w])) == [Unit('[')]
      + (Print(v) + ([Unit(',')] + if w.Undefined? then Print(Null) else Print(w))) + [Unit(']')]
  {
    assert [v, w][1..] == [w] && [w][1..] == [];
    var last := if w.Undefined? then NULL_TEXT else Print(w);
    assert PrintItems([w]) == [last] && PrintItems([v, w]) == [Print(v), last];
    JoinMore(Print(v), [last]);
  }

  /** Members stand between braces, the smaller key first, whichever was written first. */
  lemma TwoMembers(a: Member, b: Member)
    requires |a.key| == 1 && |b.key| == 1 && a.key[0] < b.key[0]
    requires AllFinite(a.value) && AllFinite(b.value) && !a.value.Undefined? && !b.value.Undefined?
    ensures Print(Obj([b, a])) == [Unit('{')]
      + (Quote(a.key) + [Unit(':')] + Print(a.value)
         + ([Unit(',')] + (Quote(b.key) + [Unit(':')] + Print(b.value)))) + [Unit('}')]
  {
    hide Quote;
    var ea, eb := Entry(a.key, Print(a.value)), Entry(b.key, Print(b.value));
    assert [b, a][1..] == [a] && [a][1..] == [];
    assert PrintMembers([a]) == [ea] && PrintMembers([b, a]) == [eb, ea];
    assert Less(a.key, b.key) && !Less(b.key, a.key);
    assert [eb, ea][1..] == [ea] && [ea][1..] == [];
    assert SortByKey([ea]) == [ea];
    assert SortByKey([eb, ea]) == [ea, eb];
    assert [ea, eb][1..] == [eb] && [eb][1..] == [];
    assert EntryTexts([eb]) == [Quote(b.key) + [COLON] + eb.text];
    assert EntryTexts([ea, eb]) == [Quote(a.key) + [COLON] + ea.text, Quote(b.key) + [COLON] + eb.text];
    JoinMore(Quote(a.key) + [COLON] + ea.text, [Quote(b.key) + [COLON] + eb.text]);
  }
}
