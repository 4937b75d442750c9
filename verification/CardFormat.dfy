/**
 The formats of card signing, field by field: the key thumbprint (RFC 7638), the public key,
 the protected header and the signing input (RFC 7515), the signed card, and what a signature
 entry must be for a card to be accepted.
 */
module CardFormat {
  import opened Options
  import opened Json
  import opened Canonical
  import opened CanonicalText
  import opened Utf8
  import opened Base64Url
  import opened CardSigning
  import opened CardVerification

  // ------------------------------------------------------------------------- the key

  /** The public key has the four members of the key that are public, and no other. */
  lemma PublicKeyHas(jwk: seq<Member>, key: Text)
    ensures Get(PublicJwk(jwk), key) ==
      if key in {[Unit('k'), Unit('t'), Unit('y')], [Unit('c'), Unit('r'), Unit('v')], [Unit('x')], [Unit('y')]}
      then Get(jwk, key) else Undefined
  {
    PublicJwkKeeps(jwk);
    if key != KTY && key != CRV && key != X && key != Y { FourAbsent(PublicJwk(jwk), key); }
  }

  lemma FourAbsent(members: seq<Member>, key: Text)
    requires |members| == 4 && forall m | m in members :: m.key != key
    ensures Get(members, key) == Undefined
  {
    assert Get(members, key) == Get(members[1..], key) == Get(members[1..][1..], key);
    assert Get(members[1..][1..], key) == Get(members[1..][1..][1..], key) == Get(members[1..][1..][1..][1..], key);
  }

  /** `"key":value`, as it stands in a canonical text. */
  function Field(key: Text, v: Value): Text
    requires AllFinite(v) && !v.Undefined?
  {
    Quote(key) + [Unit(':')] + Print(v)
  }

  predicate Present(jwk: seq<Member>, key: Text) { AllFinite(Get(jwk, key)) && !Get(jwk, key).Undefined? }

  /**
   The thumbprint of a whole key is the base64url form of the digest of the text
   {"crv":...,"kty":...,"x":...,"y":...}: those members, in that order, and nothing else.
   */
  lemma ThumbprintIs(p: Platform, jwk: seq<Member>)
    requires Present(jwk, CRV) && Present(jwk, KTY) && Present(jwk, X) && Present(jwk, Y)
    ensures var crv, kty := [Unit('c'), Unit('r'), Unit('v')], [Unit('k'), Unit('t'), Unit('y')];
      var x, y := [Unit('x')], [Unit('y')];
      Present(jwk, crv) && Present(jwk, kty) && Present(jwk, x) && Present(jwk, y) &&
      Thumbprint(p, jwk) == Some(ToBase64Url(p.digest(Encode(
        [Unit('{')] + (Field(crv, Get(jwk, crv)) + ([Unit(',')] + (Field(kty, Get(jwk, kty)) + ([Unit(',')]
        + (Field(x, Get(jwk, x)) + ([Unit(',')] + Field(y, Get(jwk, y)))))))) + [Unit('}')]))))
  {
    hide Print, Quote, Encode, ToBase64Url, Get;
    FourMembers(Member(CRV, Get(jwk, CRV)), Member(KTY, Get(jwk, KTY)), Member(X, Get(jwk, X)), Member(Y, Get(jwk, Y)));
  }

  lemma FourMembers(a: Member, b: Member, c: Member, d: Member)
    requires a.key != [] && b.key != [] && c.key != [] && d.key != []
    requires a.key[0] < b.key[0] < c.key[0] < d.key[0]
    requires forall m | m in [a, b, c, d] :: AllFinite(m.value) && !m.value.Undefined?
    ensures AllFinite(a.value) && AllFinite(b.value) && AllFinite(c.value) && AllFinite(d.value)
    ensures !a.value.Undefined? && !b.value.Undefined? && !c.value.Undefined? && !d.value.Undefined?
    ensures Print(Obj([a, b, c, d])) == [Unit('{')]
      + (Field(a.key, a.value) + ([Unit(',')] + (Field(b.key, b.value) + ([Unit(',')]
      + (Field(c.key, c.value) + ([Unit(',')] + Field(d.key, d.value))))))) + [Unit('}')]
  {
    assert a in [a, b, c, d] && b in [a, b, c, d] && c in [a, b, c, d] && d in [a, b, c, d];
    SortedFour(a, b, c, d);
    FourTexts(EntryFor(a), EntryFor(b), EntryFor(c), EntryFor(d));
  }

  function EntryFor(m: Member): Entry
    requires AllFinite(m.value) && !m.value.Undefined?
  {
    Entry(m.key, Print(m.value))
  }

  lemma SortedFour(a: Member, b: Member, c: Member, d: Member)
    requires a.key != [] && b.key != [] && c.key != [] && d.key != []
    requires a.key[0] < b.key[0] < c.key[0] < d.key[0]
    requires forall m | m in [a, b, c, d] :: AllFinite(m.value) && !m.value.Undefined?
    requires AllFinite(a.value) && AllFinite(b.value) && AllFinite(c.value) && AllFinite(d.value)
    requires !a.value.Undefined? && !b.value.Undefined? && !c.value.Undefined? && !d.value.Undefined?
    ensures SortByKey(PrintMembers([a, b, c, d])) == [EntryFor(a), EntryFor(b), EntryFor(c), EntryFor(d)]
  {
    hide Print, PrintMembers, SortByKey;
    PrintMore(d, []);
    PrintMore(c, [d]);
    PrintMore(b, [c, d]);
    PrintMore(a, [b, c, d]);
    assert [d] + [] == [d] && [c] + [d] == [c, d] && [b] + [c, d] == [b, c, d] && [a] + [b, c, d] == [a, b, c, d];
    assert PrintMembers([]) == [] by { NothingPrints(); }
    var es := [EntryFor(a), EntryFor(b), EntryFor(c), EntryFor(d)];
    assert PrintMembers([a, b, c, d]) == es;
    forall i, j | 0 <= i < j < |es| ensures Less(es[i].key, es[j].key) {
      assert es[i].key[0] < es[j].key[0];
    }
    AlreadySorted(es);
  }

  lemma NothingPrints()
    ensures PrintMembers([]) == []
  {
  }

  lemma PrintMore(m: Member, rest: seq<Member>)
    requires AllFinite(m.value) && !m.value.Undefined? && forall x | x in rest :: AllFinite(x.value)
    ensures forall x | x in [m] + rest :: AllFinite(x.value)
    ensures PrintMembers([m] + rest) == [EntryFor(m)] + PrintMembers(rest)
  {
    hide Print;
    assert ([m] + rest)[1..] == rest;
  }

  /** Entries in ascending order stay where they are. */
  lemma {:induction false} AlreadySorted(es: seq<Entry>)
    requires forall i, j | 0 <= i < j < |es| :: Less(es[i].key, es[j].key)
    ensures SortByKey(es) == es
  {
    if es != [] {
      AlreadySorted(es[1..]);
      if |es| > 1 { LessTotal(es[0].key, es[1].key); }
      assert es == [es[0]] + es[1..];
    }
  }

  lemma FourTexts(a: Entry, b: Entry, c: Entry, d: Entry)
    ensures Join(EntryTexts([a, b, c, d])) ==
      EntryText(a) + ([Unit(',')] + (EntryText(b) + ([Unit(',')] + (EntryText(c) + ([Unit(',')] + EntryText(d))))))
  {
    hide Quote;
    assert [a, b, c, d][1..] == [b, c, d] && [b, c, d][1..] == [c, d] && [c, d][1..] == [d] && [d][1..] == [];
    assert EntryTexts([d]) == [EntryText(d)];
    assert EntryTexts([c, d]) == [EntryText(c)] + [EntryText(d)];
    assert EntryTexts([b, c, d]) == [EntryText(b)] + [EntryText(c), EntryText(d)];
    assert EntryTexts([a, b, c, d]) == [EntryText(a)] + [EntryText(b), EntryText(c), EntryText(d)];
    JoinMore(EntryText(c), [EntryText(d)]);
    JoinMore(EntryText(b), [EntryText(c), EntryText(d)]);
    JoinMore(EntryText(a), [EntryText(b), EntryText(c), EntryText(d)]);
  }

  // ------------------------------------------------------------------ what is signed

  /** The protected header: algorithm, type, key and, if there is one, where to find the key. */
  lemma HeaderHas(kid: Text, jku: Option<Text>)
    ensures var h := ProtectedHeader(kid, jku).members;
      && Get(h, [Unit('a'), Unit('l'), Unit('g')]) == Str([Unit('E'), Unit('S'), Unit('2'), Unit('5'), Unit('6')])
      && Get(h, [Unit('t'), Unit('y'), Unit('p')]) == Str([Unit('J'), Unit('O'), Unit('S'), Unit('E')])
      && Get(h, [Unit('k'), Unit('i'), Unit('d')]) == Str(kid)
      && Get(h, [Unit('j'), Unit('k'), Unit('u')])
         == (if jku.Some? && jku.value != [] then Str(jku.value) else Undefined)
      && |h| == if jku.Some? && jku.value != [] then 4 else 3
  {
    var h := ProtectedHeader(kid, jku).members;
    HeaderMembers(kid, jku);
    assert JKU[0] != ALG[0] && JKU[0] != TYP[0] && JKU[0] != KID[0];
    GetMember(h, h[1]);
    if |h| == 4 {
      GetMember(h, h[3]);
    } else {
      assert Get(h, JKU) == Get(h[1..], JKU) == Get(h[1..][1..], JKU) == Get(h[1..][1..][1..], JKU);
    }
  }

  /**
   The signed bytes of a card: the protected text, a dot, and the base64url form of the
   card's canonical text without its signatures; none for a card with a number that is not
   finite.
   */
  lemma InputIs(card: seq<Member>, text: Text)
    requires Ascii(text)
    ensures SigningInput(card, text).None? <==> !AllFinite(Unsigned(card))
    ensures SigningInput(card, text).Some? ==>
      var input, n := SigningInput(card, text).value, |text|;
      && |input| > n && input[..n] == text && input[n] == Unit('.') && Unit('.') !in input[n + 1..]
      && ToBytes(input[n + 1..]) == Some(Encode(Print(Unsigned(card))))
  {
    hide Print, Encode, ToBase64Url, ToBytes, Unsigned;
    if AllFinite(Unsigned(card)) {
      var payload := Encode(Print(Unsigned(card)));
      AsciiInput(text, payload);
      UrlIsAscii(payload);
      RoundTrip(payload);
      var input := text + [DOT] + ToBase64Url(payload);
      assert input[..|text|] == text && input[|text| + 1..] == ToBase64Url(payload);
    }
  }

  // ---------------------------------------------------------------- the card that is sent

  lemma {:induction false} WithoutIsAbsent(members: seq<Member>, key: Text)
    ensures forall m | m in Without(members, key) :: m.key != key
    ensures forall m | m in members && m.key != key :: m in Without(members, key)
  {
    if members != [] { WithoutIsAbsent(members[1..], key); }
  }

  lemma {:induction false} WithoutAppend(members: seq<Member>, m: Member, key: Text)
    requires m.key == key && forall x | x in members :: x.key != key
    ensures Without(members + [m], key) == members && Get(members + [m], key) == m.value
  {
    if members == [] {
      assert [] + [m] == [m] && [m][1..] == [];
    } else {
      assert members[0] in members && (members + [m])[1..] == members[1..] + [m];
      WithoutAppend(members[1..], m, key);
    }
  }

  lemma {:induction false} WireAppend(members: seq<Member>, m: Member)
    requires !m.value.Undefined?
    ensures WireMembers(members + [m]) == WireMembers(members) + [Member(m.key, Wire(m.value))]
  {
    if members == [] {
      assert [] + [m] == [m] && [m][1..] == [];
    } else {
      assert (members + [m])[1..] == members[1..] + [m];
      WireAppend(members[1..], m);
    }
  }

  lemma {:induction false} WireKeepsKeys(members: seq<Member>, key: Text)
    requires forall m | m in members :: m.key != key
    ensures forall m | m in WireMembers(members) :: m.key != key
  {
    if members != [] {
      assert members[0] in members;
      WireKeepsKeys(members[1..], key);
    }
  }

  lemma EntryIsPlain(protectedText: Text, signature: Bytes)
    ensures var entry := SignatureObject(protectedText, signature);
      Plain(entry) && Wire(entry) == entry && Wire(Arr([entry])) == Arr([entry])
  {
    hide ToBase64Url;
    TwoStrings(PROTECTED, protectedText, SIGNATURE, ToBase64Url(signature));
    OneItem(SignatureObject(protectedText, signature));
  }

  lemma TwoStrings(k: Text, s: Text, l: Text, t: Text)
    requires k != l
    ensures var v := Obj([Member(k, Str(s)), Member(l, Str(t))]);
      Plain(v) && Wire(v) == v
  {
    var m, n := Member(k, Str(s)), Member(l, Str(t));
    assert [m, n][1..] == [n] && [n][1..] == [];
    assert WireMembers([n]) == [n] && WireMembers([m, n]) == [m, n];
  }

  lemma OneItem(v: Value)
    requires Wire(v) == v
    ensures Wire(Arr([v])) == Arr([v])
  {
    assert [v][1..] == [];
  }

  /** What `signCard` returns, as JSON carries it: the card without old signatures, and one of its own. */
  lemma SentCardIs(p: Platform, card: seq<Member>, key: seq<Member>, jku: Option<Text>, salt: nat)
    requires SignCard(p, card, key, jku, salt).Some?
    ensures var text := ProtectedText(Thumbprint(p, key).value, jku);
      var entry := SignatureObject(text, p.sign(key, SigningInput(card, text).value, salt));
      var sent := Wire(Obj(SignCard(p, card, key, jku, salt).value));
      && sent.Obj? && Unsigned(sent.members) == Wire(Unsigned(card))
      && Get(sent.members, SIGNATURES) == Arr([] + [entry] + []) && Plain(entry)
  {
    hide Encode, Print, ToBase64Url, Get, Without, WireMembers;
    var text := ProtectedText(Thumbprint(p, key).value, jku);
    var entry := SignatureObject(text, p.sign(key, SigningInput(card, text).value, salt));
    var kept := Without(card, SIGNATURES);
    EntryIsPlain(text, p.sign(key, SigningInput(card, text).value, salt));
    WireAppend(kept, Member(SIGNATURES, Arr([entry])));
    WithoutIsAbsent(card, SIGNATURES);
    WireKeepsKeys(kept, SIGNATURES);
    WithoutAppend(WireMembers(kept), Member(SIGNATURES, Arr([entry])), SIGNATURES);
    assert [] + [entry] + [] == [entry];
  }

  /** So the card that `signCard` returns is accepted by both sides after it was sent as JSON. */
  lemma OwnCardAccepted(p: Platform, card: seq<Member>, key: seq<Member>, jku: Option<Text>, salt: nat)
    requires Faithful(p, key) && WellFormed(Obj(card)) && SignCard(p, card, key, jku, salt).Some?
    ensures var sent := Wire(Obj(SignCard(p, card, key, jku, salt).value));
      var verdict := Accepted(Thumbprint(p, key).value);
      SellerVerdict(p, sent, PublicJwk(key)) == verdict && BuyerVerdict(p, sent, PublicJwk(key)) == verdict
  {
    hide SellerVerdict, BuyerVerdict, Wire, Same, Get, PublicJwk, ProtectedText, SignatureObject, Faithful, Print,
      Plain, Thumbprint, WellFormed, SigningInput;
    var text := ProtectedText(Thumbprint(p, key).value, jku);
    var entry := SignatureObject(text, p.sign(key, SigningInput(card, text).value, salt));
    var sent := Wire(Obj(SignCard(p, card, key, jku, salt).value));
    SentCardIs(p, card, key, jku, salt);
    SignableIsPlain(p, card, key, jku, salt);
    SameAsItself(entry);
    SameAsItself(Wire(Unsigned(card)));
    SignedCardAccepted(p, key, card, jku, salt, sent, [], entry, []);
  }

  lemma SignableIsPlain(p: Platform, card: seq<Member>, key: seq<Member>, jku: Option<Text>, salt: nat)
    requires WellFormed(Obj(card)) && SignCard(p, card, key, jku, salt).Some?
    ensures Plain(Wire(Unsigned(card)))
  {
    hide Encode, Print, ToBase64Url;
    UnsignedWellFormed(card);
    WirePlain(Unsigned(card));
    WirePrints(Unsigned(card));
  }

  lemma SameAsItself(v: Value)
    requires Plain(v)
    ensures Same(v, v)
  {
    Injective(v, v);
  }

  // --------------------------------------------------------------- who is accepted

  /** The entry's protected text decodes to a JSON header. */
  predicate HeaderOf(p: Platform, entry: Value, text: Text, header: Value) {
    && Property(entry, PROTECTED).Some? && ToText(Property(entry, PROTECTED).value) == Some(text)
    && ToBytes(text).Some? && p.parse(p.decode(ToBytes(text).value)) == Some(header)
  }

  /** ... which names this algorithm and this key. */
  ghost predicate Names(p: Platform, entry: Value, kid: Text, text: Text) {
    exists header :: HeaderOf(p, entry, text, header)
      && OptionalProperty(header, [Unit('a'), Unit('l'), Unit('g')])
         == Str([Unit('E'), Unit('S'), Unit('2'), Unit('5'), Unit('6')])
      && OptionalProperty(header, [Unit('k'), Unit('i'), Unit('d')]) == Str(kid)
  }

  /** The entry names the key, and its signature verifies over the signed bytes of this card. */
  ghost predicate Vouches(p: Platform, members: seq<Member>, jwk: seq<Member>, kid: Text, entry: Value) {
    exists text :: Names(p, entry, kid, text)
      && SignatureBytes(entry).Some? && SigningInput(members, text).Some?
      && p.verify(Obj(PublicJwk(jwk)), SignatureBytes(entry).value, SigningInput(members, text).value)
  }

  /** The entry names the key, and its signature cannot be decoded, or the card has no signed bytes. */
  ghost predicate Chokes(p: Platform, members: seq<Member>, kid: Text, entry: Value) {
    exists text :: Names(p, entry, kid, text) && (SignatureBytes(entry).None? || SigningInput(members, text).None?)
  }

  lemma AttemptIs(p: Platform, members: seq<Member>, jwk: seq<Member>, kid: Text, entry: Value)
    ensures SellerAttempt(p, members, jwk, kid, entry) == Valid <==> Vouches(p, members, jwk, kid, entry)
    ensures SellerAttempt(p, members, jwk, kid, entry) == Throw <==> Chokes(p, members, kid, entry)
  {
    hide SignatureBytes, SigningInput, ToText, ToBytes, Property, OptionalProperty, PublicJwk;
    if Claims(p, entry, kid) {
      var (text, header) := DecodeHeader(p, entry).value;
      assert HeaderOf(p, entry, text, header);
      assert Names(p, entry, kid, text);
    }
    forall text | Names(p, entry, kid, text)
      ensures Claims(p, entry, kid) && DecodeHeader(p, entry).value.0 == text
    {
      var header :| HeaderOf(p, entry, text, header)
        && OptionalProperty(header, [Unit('a'), Unit('l'), Unit('g')])
           == Str([Unit('E'), Unit('S'), Unit('2'), Unit('5'), Unit('6')])
        && OptionalProperty(header, [Unit('k'), Unit('i'), Unit('d')]) == Str(kid);
      assert DecodeHeader(p, entry) == Some((text, header));
    }
  }

  /** This entry verifies, and none before it throws. */
  predicate AcceptsAt(entries: seq<Value>, f: Value -> Attempt, i: int) {
    0 <= i < |entries| && f(entries[i]) == Valid && forall j | 0 <= j < i :: f(entries[j]) != Throw
  }

  lemma AcceptsLater(entries: seq<Value>, f: Value -> Attempt, i: int)
    requires entries != [] && i >= 0
    ensures AcceptsAt(entries, f, i + 1) <==> f(entries[0]) != Throw && AcceptsAt(entries[1..], f, i)
  {
    var rest := entries[1..];
    if AcceptsAt(entries, f, i + 1) {
      forall j | 0 <= j < i ensures f(rest[j]) != Throw { assert rest[j] == entries[j + 1]; }
    }
    if AcceptsAt(rest, f, i) && f(entries[0]) != Throw {
      forall j | 0 <= j < i + 1 ensures f(entries[j]) != Throw { assert j > 0 ==> entries[j] == rest[j - 1]; }
    }
  }

  lemma {:induction false} DecideAcceptsIff(entries: seq<Value>, f: Value -> Attempt, kid: Text)
    ensures Decide(entries, f, kid) == Accepted(kid) <==> exists i :: AcceptsAt(entries, f, i)
    ensures Decide(entries, f, kid).Accepted? ==> Decide(entries, f, kid) == Accepted(kid)
  {
    if entries != [] {
      hide AcceptsAt;
      DecideAcceptsIff(entries[1..], f, kid);
      assert AcceptsAt(entries, f, 0) <==> f(entries[0]) == Valid by { AcceptsFirst(entries, f); }
      if i :| AcceptsAt(entries[1..], f, i) {
        AcceptsInside(entries[1..], f, i);
        AcceptsLater(entries, f, i);
      }
      if i :| AcceptsAt(entries, f, i) {
        AcceptsInside(entries, f, i);
        if i > 0 { AcceptsLater(entries, f, i - 1); }
      }
    }
  }

  lemma AcceptsFirst(entries: seq<Value>, f: Value -> Attempt)
    requires entries != []
    ensures AcceptsAt(entries, f, 0) <==> f(entries[0]) == Valid
  {
  }

  lemma AcceptsInside(entries: seq<Value>, f: Value -> Attempt, i: int)
    requires AcceptsAt(entries, f, i)
    ensures 0 <= i < |entries|
  {
  }

  /** This entry vouches for the card, and none before it chokes. */
  ghost predicate VouchedAt(p: Platform, card: Value, jwk: seq<Member>, kid: Text, entries: seq<Value>, i: int) {
    && 0 <= i < |entries| && Vouches(p, MembersOf(card), jwk, kid, entries[i])
    && forall j | 0 <= j < i :: !Chokes(p, MembersOf(card), kid, entries[j])
  }

  /**
   Exactly these cards are accepted: the key imports and has a thumbprint, and some entry of
   the signatures names that key and verifies over the card, with none before it that names
   the key and cannot be read. And exactly a card without a nonempty array of signatures is
   unsigned.
   */
  lemma AcceptedIff(p: Platform, card: Value, jwk: seq<Member>, kid: Text)
    ensures var signatures := OptionalProperty(card, SIGNATURES);
      && (SellerVerdict(p, card, jwk) == Rejected(CardUnsigned) <==> !(signatures.Arr? && |signatures.items| > 0))
      && (SellerVerdict(p, card, jwk) == Accepted(kid) <==>
            && signatures.Arr? && p.importable(Obj(PublicJwk(jwk))) && Thumbprint(p, jwk) == Some(kid)
            && exists i :: VouchedAt(p, card, jwk, kid, signatures.items, i))
  {
    hide Vouches, Chokes, VouchedAt, AcceptsAt, SellerAttempt, Thumbprint, PublicJwk, OptionalProperty, MembersOf;
    var signatures := OptionalProperty(card, SIGNATURES);
    if signatures.Arr? && Thumbprint(p, jwk).Some? {
      var k := Thumbprint(p, jwk).value;
      var f := e => SellerAttempt(p, MembersOf(card), jwk, k, e);
      DecideAcceptsIff(signatures.items, f, k);
      NeverUnsigned(signatures.items, f, k);
      forall i ensures AcceptsAt(signatures.items, f, i) <==> VouchedAt(p, card, jwk, k, signatures.items, i) {
        AcceptsIsVouched(p, card, jwk, k, signatures.items, i);
      }
    }
  }

  lemma AcceptsIsVouched(p: Platform, card: Value, jwk: seq<Member>, kid: Text, entries: seq<Value>, i: int)
    ensures AcceptsAt(entries, e => SellerAttempt(p, MembersOf(card), jwk, kid, e), i)
       <==> VouchedAt(p, card, jwk, kid, entries, i)
  {
    hide Vouches, Chokes, SellerAttempt, MembersOf;
    forall e
      ensures SellerAttempt(p, MembersOf(card), jwk, kid, e) == Valid <==> Vouches(p, MembersOf(card), jwk, kid, e)
      ensures SellerAttempt(p, MembersOf(card), jwk, kid, e) == Throw <==> Chokes(p, MembersOf(card), kid, e)
    {
      AttemptIs(p, MembersOf(card), jwk, kid, e);
    }
  }

  lemma {:induction false} NeverUnsigned(entries: seq<Value>, f: Value -> Attempt, kid: Text)
    ensures Decide(entries, f, kid) != Rejected(CardUnsigned)
  {
    if entries != [] { NeverUnsigned(entries[1..], f, kid); }
  }
}
