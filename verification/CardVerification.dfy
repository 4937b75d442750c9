/**
 What the card signature gives the buyer: an accepted card was signed, a signed card is
 accepted after the wire, and the two verifiers agree except in one family of cards.
 */
module CardVerification {
  import opened Options
  import opened Json
  import opened Canonical
  import opened Utf8
  import opened Base64Url
  import opened CardSigning
  import opened Seqs

  // ------------------------------------------------------------- the loop's decision

  lemma {:induction false} DecideAgree(entries: seq<Value>, f: Value -> Attempt, g: Value -> Attempt, kid: Text)
    requires forall e | e in entries :: f(e) == g(e)
    ensures Decide(entries, f, kid) == Decide(entries, g, kid)
  {
    if entries != [] {
      assert entries[0] in entries;
      DecideAgree(entries[1..], f, g, kid);
    }
  }

  lemma {:induction false} DecideAccepts(entries: seq<Value>, f: Value -> Attempt, kid: Text)
    requires Decide(entries, f, kid).Accepted?
    ensures exists e | e in entries :: f(e) == Valid
  {
    if f(entries[0]) == Valid {
      assert entries[0] in entries;
    } else {
      DecideAccepts(entries[1..], f, kid);
    }
  }

  lemma {:induction false} DecideThrows(entries: seq<Value>, f: Value -> Attempt, kid: Text)
    requires forall e | e in entries :: f(e) == Skip || f(e) == Throw
    ensures Decide(entries, f, kid) ==
      if exists e | e in entries :: f(e) == Throw then Throws else Rejected(CardSignatureInvalid)
  {
    if entries != [] {
      assert entries[0] in entries;
      DecideThrows(entries[1..], f, kid);
      assert forall e | e in entries[1..] :: e in entries;
    }
  }

  /** The loop throws exactly if some entry throws and none before it verifies. */
  lemma {:induction false} DecideThrowsIff(entries: seq<Value>, f: Value -> Attempt, kid: Text)
    ensures Decide(entries, f, kid) == Throws
       <==> exists i :: 0 <= i < |entries| && f(entries[i]) == Throw && forall j | 0 <= j < i :: f(entries[j]) != Valid
  {
    if entries != [] {
      var rest := entries[1..];
      DecideThrowsIff(rest, f, kid);
      if exists i :: 0 <= i < |rest| && f(rest[i]) == Throw && forall j | 0 <= j < i :: f(rest[j]) != Valid {
        var i :| 0 <= i < |rest| && f(rest[i]) == Throw && forall j | 0 <= j < i :: f(rest[j]) != Valid;
        assert f(entries[i + 1]) == Throw;
        assert forall j | 0 < j < i + 1 :: entries[j] == rest[j - 1];
      }
      if exists i :: 0 <= i < |entries| && f(entries[i]) == Throw && forall j | 0 <= j < i :: f(entries[j]) != Valid {
        var i :| 0 <= i < |entries| && f(entries[i]) == Throw && forall j | 0 <= j < i :: f(entries[j]) != Valid;
        if i > 0 {
          assert f(rest[i - 1]) == Throw;
          assert forall j | 0 <= j < i - 1 :: rest[j] == entries[j + 1];
        }
      }
    }
  }

  /** The entries before one that verifies either let the loop reach it or decide first. */
  lemma {:induction false} DecideReaches(before: seq<Value>, entry: Value, after: seq<Value>, f: Value -> Attempt,
                                         kid: Text)
    requires f(entry) == Valid
    ensures Decide(before + [entry] + after, f, kid) ==
      if Decide(before, f, kid) == Throws then Throws else Accepted(kid)
  {
    var entries := before + [entry] + after;
    if before == [] {
      assert entries[0] == entry;
    } else {
      DecideReaches(before[1..], entry, after, f, kid);
      assert entries[0] == before[0] && entries[1..] == before[1..] + [entry] + after;
    }
  }

  // ----------------------------------------------------------- keys and public keys

  lemma PublicJwkKeeps(jwk: seq<Member>)
    ensures Get(PublicJwk(jwk), KTY) == Get(jwk, KTY) && Get(PublicJwk(jwk), CRV) == Get(jwk, CRV)
    ensures Get(PublicJwk(jwk), X) == Get(jwk, X) && Get(PublicJwk(jwk), Y) == Get(jwk, Y)
  {
    var m := PublicJwk(jwk);
    assert KTY[0] != CRV[0] && |X| == |Y| == 1 && X[0] != Y[0];
    assert UniqueKeys(m);
    GetMember(m, m[0]);
    GetMember(m, m[1]);
    GetMember(m, m[2]);
    GetMember(m, m[3]);
  }

  /** The thumbprint and the imported key depend on the public half only. */
  lemma PublicHalf(p: Platform, jwk: seq<Member>)
    ensures Thumbprint(p, PublicJwk(jwk)) == Thumbprint(p, jwk)
    ensures PublicJwk(PublicJwk(jwk)) == PublicJwk(jwk)
  {
    PublicJwkKeeps(jwk);
  }

  // ------------------------------------------------------- the two verifiers compared

  /** Some signature claims to be made with the pinned key. */
  ghost predicate SomeClaim(p: Platform, card: Value, jwk: seq<Member>) {
    && SignaturesOf(card).Some? && Thumbprint(p, jwk).Some?
    && exists e | e in SignaturesOf(card).value :: Claims(p, e, Thumbprint(p, jwk).value)
  }

  lemma FiniteAgree(p: Platform, card: Value, jwk: seq<Member>)
    requires AllFinite(Unsigned(MembersOf(card)))
    ensures SellerVerdict(p, card, jwk) == BuyerVerdict(p, card, jwk)
  {
    hide SellerAttempt, BuyerAttempt, PublicJwk, Thumbprint, Print, Encode, ToBase64Url, Unsigned, AllFinite;
    PublicHalf(p, jwk);
    if SignaturesOf(card).Some? && Thumbprint(p, jwk).Some? {
      var kid, members := Thumbprint(p, jwk).value, MembersOf(card);
      var payload := ToBase64Url(Encode(Print(Unsigned(members))));
      forall e ensures SellerAttempt(p, members, jwk, kid, e) == BuyerAttempt(p, payload, PublicJwk(jwk), kid, e) {
        AttemptsAgree(p, members, jwk, kid, e);
      }
      DecideAgree(SignaturesOf(card).value,
                  e => SellerAttempt(p, members, jwk, kid, e),
                  e => BuyerAttempt(p, payload, PublicJwk(jwk), kid, e), kid);
    }
  }

  lemma AttemptsAgree(p: Platform, members: seq<Member>, jwk: seq<Member>, kid: Text, e: Value)
    requires AllFinite(Unsigned(members))
    ensures SellerAttempt(p, members, jwk, kid, e)
         == BuyerAttempt(p, ToBase64Url(Encode(Print(Unsigned(members)))), PublicJwk(jwk), kid, e)
  {
    hide Print, Encode, ToBase64Url, Unsigned, AllFinite, PublicJwk, DecodeHeader, Claims;
  }

  lemma NonFiniteVerdicts(p: Platform, card: Value, jwk: seq<Member>)
    requires !AllFinite(Unsigned(MembersOf(card)))
    requires SignaturesOf(card).Some? && p.importable(Obj(PublicJwk(jwk))) && Thumbprint(p, jwk).Some?
    ensures BuyerVerdict(p, card, jwk) == Throws
    ensures SellerVerdict(p, card, jwk) == if SomeClaim(p, card, jwk) then Throws else Rejected(CardSignatureInvalid)
  {
    PublicHalf(p, jwk);
    var kid, members := Thumbprint(p, jwk).value, MembersOf(card);
    forall e ensures SellerAttempt(p, members, jwk, kid, e) == if Claims(p, e, kid) then Throw else Skip {
    }
    DecideThrows(SignaturesOf(card).value, e => SellerAttempt(p, members, jwk, kid, e), kid);
  }

  /**
   Seller and buyer reach the same verdict on a card, except on one that carries
   signatures, none of which claims the pinned key, and a number too large for a double:
   there the buyer throws, because it encodes the payload first, and the seller does not.
   */
  lemma VerifiersAgree(p: Platform, card: Value, jwk: seq<Member>)
    ensures SellerVerdict(p, card, jwk) == BuyerVerdict(p, card, jwk) <==>
      (|| SignaturesOf(card).None?
       || !p.importable(Obj(PublicJwk(jwk)))
       || Thumbprint(p, jwk).None?
       || AllFinite(Unsigned(MembersOf(card)))
       || SomeClaim(p, card, jwk))
  {
    if AllFinite(Unsigned(MembersOf(card))) {
      FiniteAgree(p, card, jwk);
    } else if SignaturesOf(card).Some? && p.importable(Obj(PublicJwk(jwk))) && Thumbprint(p, jwk).Some? {
      NonFiniteVerdicts(p, card, jwk);
    } else {
      PublicHalf(p, jwk);
    }
  }

  /** Both verifiers accept under the same circumstances. */
  lemma BothAccept(p: Platform, card: Value, jwk: seq<Member>)
    ensures SellerVerdict(p, card, jwk).Accepted? <==> BuyerVerdict(p, card, jwk).Accepted?
  {
    if AllFinite(Unsigned(MembersOf(card))) {
      FiniteAgree(p, card, jwk);
    } else if SignaturesOf(card).Some? && p.importable(Obj(PublicJwk(jwk))) && Thumbprint(p, jwk).Some? {
      NonFiniteVerdicts(p, card, jwk);
    } else {
      PublicHalf(p, jwk);
    }
  }

  // ------------------------------------------------- an accepted card was once signed

  /** One call of `signCard`: the card it was given, and the optional key location. */
  datatype Signing = Signing(card: seq<Member>, jku: Option<Text>)

  /** Unforgeability: a signature that verifies is over the input of one of these calls. */
  ghost predicate OnlySigned(p: Platform, jwk: seq<Member>, calls: seq<Signing>)
    requires Thumbprint(p, jwk).Some?
  {
    forall signature, message :: p.verify(Obj(PublicJwk(jwk)), signature, message) ==>
      exists i :: 0 <= i < |calls| && IsInput(p, jwk, calls[i], message)
  }

  ghost predicate IsInput(p: Platform, jwk: seq<Member>, call: Signing, message: Bytes)
    requires Thumbprint(p, jwk).Some?
  {
    SigningInput(call.card, ProtectedText(Thumbprint(p, jwk).value, call.jku)) == Some(message)
  }

  /** The '.' separates: neither side of it can hold another. */
  lemma {:induction false} SplitAtDot(a: Text, x: Text, b: Text, y: Text)
    requires a + [DOT] + x == b + [DOT] + y && DOT !in a && DOT !in b
    ensures a == b && x == y
  {
    var s := a + [DOT] + x;
    assert s == b + [DOT] + y;
    assert s[|a|] == DOT && s[|b|] == DOT;
    assert forall i | 0 <= i < |a| :: s[i] == a[i] && a[i] in a;
    assert forall i | 0 <= i < |b| :: s[i] == b[i] && b[i] in b;
    assert |a| == |b|;
    Cancel(a + [DOT], x, b + [DOT], y);
    Cancel(a, [DOT], b, [DOT]);
  }

  lemma UrlIsAscii(b: Bytes)
    ensures Ascii(ToBase64Url(b)) && DOT !in ToBase64Url(b)
  {
    UrlAlphabet(b);
    forall i | 0 <= i < |ToBase64Url(b)| ensures ToBase64Url(b)[i] < 128 {
      assert ToBase64Url(b)[i] in ToBase64Url(b);
    }
  }

  lemma AsciiInput(a: Text, b: Bytes)
    requires Ascii(a)
    ensures Encode(a + [DOT] + ToBase64Url(b)) == a + [DOT] + ToBase64Url(b)
  {
    UrlIsAscii(b);
    var t := a + [DOT] + ToBase64Url(b);
    assert Ascii(t);
    AsciiEncode(t);
  }

  /** The signed bytes determine the payload. */
  lemma InputDeterminesPayload(a: Text, x: Bytes, b: Text, y: Bytes)
    requires Ascii(a) && Ascii(b) && DOT !in a && DOT !in b
    requires Encode(a + [DOT] + ToBase64Url(x)) == Encode(b + [DOT] + ToBase64Url(y))
    ensures x == y
  {
    AsciiInput(a, x);
    AsciiInput(b, y);
    SplitAtDot(a, ToBase64Url(x), b, ToBase64Url(y));
    RoundTrip(x);
    RoundTrip(y);
  }

  /** One entry that verified, with its protected text and the message it is over. */
  lemma AcceptingEntry(p: Platform, card: Value, jwk: seq<Member>)
    returns (text: Text, signature: Bytes, message: Bytes)
    requires SellerVerdict(p, card, jwk).Accepted?
    ensures ToBytes(text).Some? && SigningInput(MembersOf(card), text) == Some(message)
    ensures p.verify(Obj(PublicJwk(jwk)), signature, message)
  {
    var kid := Thumbprint(p, jwk).value;
    var attempt := e => SellerAttempt(p, MembersOf(card), jwk, kid, e);
    DecideAccepts(SignaturesOf(card).value, attempt, kid);
    var entry :| entry in SignaturesOf(card).value && attempt(entry) == Valid;
    text := DecodeHeader(p, entry).value.0;
    signature := SignatureBytes(entry).value;
    message := SigningInput(MembersOf(card), text).value;
  }

  /**
   A card that either verifier accepts under a pinned key is, without its signatures, equal
   up to member order to a card given to `signCard` with that key, as JSON carries it.
   */
  lemma AcceptedWasSigned(p: Platform, card: Value, jwk: seq<Member>, calls: seq<Signing>)
    requires Thumbprint(p, jwk).Some? && OnlySigned(p, jwk, calls)
    requires forall i | 0 <= i < |calls| :: WellFormed(Obj(calls[i].card))
    requires Defined(card) && WellFormed(card)
    requires SellerVerdict(p, card, jwk).Accepted? || BuyerVerdict(p, card, jwk).Accepted?
    ensures exists i :: 0 <= i < |calls| && Same(Unsigned(MembersOf(card)), Wire(Unsigned(calls[i].card)))
  {
    hide Print, Encode, ToBase64Url, ToBytes, Same, Wire, Unsigned, SellerVerdict, BuyerVerdict, Thumbprint,
      SigningInput, ProtectedText, OnlySigned, PublicJwk, AllFinite;
    BothAccept(p, card, jwk);
    var text, signature, message := AcceptingEntry(p, card, jwk);
    var i := FindCall(p, jwk, calls, signature, message);
    SameInput(MembersOf(card), text, calls[i], Thumbprint(p, jwk).value);
  }

  lemma FindCall(p: Platform, jwk: seq<Member>, calls: seq<Signing>, signature: Bytes, message: Bytes) returns (i: nat)
    requires Thumbprint(p, jwk).Some? && OnlySigned(p, jwk, calls)
    requires p.verify(Obj(PublicJwk(jwk)), signature, message)
    ensures i < |calls| && SigningInput(calls[i].card, ProtectedText(Thumbprint(p, jwk).value, calls[i].jku))
      == Some(message)
  {
    i :| 0 <= i < |calls| && IsInput(p, jwk, calls[i], message);
  }

  lemma WithoutKeeps(members: seq<Member>, key: Text)
    ensures forall m | m in Without(members, key) :: m in members
  {
  }

  lemma {:induction false} WithoutUnique(members: seq<Member>, key: Text)
    requires UniqueKeys(members)
    ensures UniqueKeys(Without(members, key))
  {
    if members != [] {
      WithoutUnique(members[1..], key);
      WithoutKeeps(members[1..], key);
      var rest := Without(members[1..], key);
      assert forall i | 0 <= i < |rest| :: rest[i] in rest && rest[i] in members[1..];
    }
  }

  lemma UnsignedWellFormed(card: seq<Member>)
    requires WellFormed(Obj(card))
    ensures WellFormed(Unsigned(card)) && (Defined(Obj(card)) ==> Defined(Unsigned(card)))
  {
    WithoutKeeps(card, SIGNATURES);
    WithoutUnique(card, SIGNATURES);
  }

  /** A received value that prints like a given one is that value, as JSON carries it. */
  lemma SameText(got: Value, given: Value)
    requires AllFinite(got) && Defined(got) && WellFormed(got)
    requires AllFinite(given) && WellFormed(given) && !given.Undefined?
    requires Print(got) == Print(given)
    ensures Same(got, Wire(given))
  {
    WirePlain(given);
    WirePrints(given);
    CanonicalIffSame(got, Wire(given));
  }

  lemma ProtectedIsAscii(kid: Text, jku: Option<Text>)
    ensures Ascii(ProtectedText(kid, jku)) && DOT !in ProtectedText(kid, jku)
  {
    UrlIsAscii(Encode(Print(ProtectedHeader(kid, jku))));
  }

  lemma SameInput(card: seq<Member>, text: Text, call: Signing, kid: Text)
    requires Defined(Obj(card)) && WellFormed(Obj(card)) && WellFormed(Obj(call.card))
    requires ToBytes(text).Some?
    requires SigningInput(card, text).Some?
    requires SigningInput(card, text) == SigningInput(call.card, ProtectedText(kid, call.jku))
    ensures Same(Unsigned(card), Wire(Unsigned(call.card)))
  {
    hide Print, Encode, Unsigned, AllFinite, Defined, WellFormed, Same, Wire, SigningInput, ProtectedText;
    ProtectedIsAscii(kid, call.jku);
    SameCanonical(card, text, call.card, ProtectedText(kid, call.jku));
    UnsignedWellFormed(card);
    UnsignedWellFormed(call.card);
    SameText(Unsigned(card), Unsigned(call.card));
  }

  lemma SameCanonical(card: seq<Member>, text: Text, other: seq<Member>, otherText: Text)
    requires ToBytes(text).Some? && Ascii(otherText) && DOT !in otherText
    requires SigningInput(card, text).Some?
    requires SigningInput(card, text) == SigningInput(other, otherText)
    ensures AllFinite(Unsigned(card)) && AllFinite(Unsigned(other))
    ensures Print(Unsigned(card)) == Print(Unsigned(other))
  {
    AcceptedText(text);
    EqualInputs(text, Unsigned(card), otherText, Unsigned(other));
  }

  lemma EqualInputs(a: Text, v: Value, b: Text, w: Value)
    requires Printable(v) && Printable(w)
    requires Ascii(a) && Ascii(b) && DOT !in a && DOT !in b
    requires Encode(a + [DOT] + ToBase64Url(Encode(Print(v)))) == Encode(b + [DOT] + ToBase64Url(Encode(Print(w))))
    ensures Print(v) == Print(w)
  {
    InputDeterminesPayload(a, Encode(Print(v)), b, Encode(Print(w)));
    PrintUtf16(v);
    PrintUtf16(w);
    EncodeInjective(Print(v), Print(w));
  }

  // ------------------------------------------------------- a signed card is accepted

  const BYTE_ORDER_MARK: CodeUnit := 0xFEFF

  /** The protected headers that `signCard` writes survive printing and parsing. */
  ghost predicate ParsesHeaders(p: Platform) {
    forall kid, jku :: var h := ProtectedHeader(kid, jku);
      p.parse(Print(h)).Some? && Same(h, p.parse(Print(h)).value)
  }

  /** The platform does what its documentation says, for such headers and this key. */
  ghost predicate Faithful(p: Platform, key: seq<Member>) {
    && ParsesHeaders(p)
    && (forall t :: Utf16(t) && t != [] && t[0] != BYTE_ORDER_MARK ==> p.decode(Encode(t)) == t)
    && (forall message, salt :: p.verify(Obj(PublicJwk(key)), p.sign(key, message, salt), message))
    && p.importable(Obj(PublicJwk(key)))
  }

  lemma HeaderMembers(kid: Text, jku: Option<Text>)
    ensures var h := ProtectedHeader(kid, jku);
      && UniqueKeys(h.members)
      && Get(h.members, ALG) == Str(ES256) && Get(h.members, KID) == Str(kid)
  {
    var h := ProtectedHeader(kid, jku);
    assert ALG[0] != TYP[0] && ALG[0] != KID[0] && TYP[0] != KID[0];
    assert JKU[0] != ALG[0] && JKU[0] != TYP[0] && JKU[0] != KID[0];
    GetThird(h.members, KID);
  }

  lemma HeaderPlain(kid: Text, jku: Option<Text>)
    ensures Plain(ProtectedHeader(kid, jku))
  {
    var h := ProtectedHeader(kid, jku);
    HeaderMembers(kid, jku);
    forall m | m in h.members ensures Plain(m.value) {
      assert m.value.Str?;
    }
  }

  lemma GetThird(members: seq<Member>, key: Text)
    requires |members| >= 3 && members[0].key != key && members[1].key != key && members[2].key == key
    ensures Get(members, key) == members[2].value
  {
    assert Get(members, key) == Get(members[1..], key) == Get(members[1..][1..], key);
  }

  lemma SameStrings(v: Value, w: Value, key: Text)
    requires Same(v, w) && v.Obj? && UniqueKeys(v.members) && Get(v.members, key).Str?
    ensures w.Obj? && Get(w.members, key) == Get(v.members, key)
  {
    var m := MemberOfGet(v.members, key);
    assert Same(m.value, Get(w.members, m.key));
  }

  /** The protected header that `signCard` writes can be read back. */
  lemma OwnHeaderReadable(p: Platform, key: seq<Member>, kid: Text, jku: Option<Text>)
    requires Faithful(p, key)
    ensures var bytes := Encode(Print(ProtectedHeader(kid, jku)));
      && p.parse(p.decode(bytes)).Some?
      && Same(ProtectedHeader(kid, jku), p.parse(p.decode(bytes)).value)
  {
    var h := ProtectedHeader(kid, jku);
    HeaderPlain(kid, jku);
    PrintUtf16(h);
    assert Print(h)[0] == OPEN_BRACE;
    assert p.decode(Encode(Print(h))) == Print(h);
  }

  /** ... and is recognised by the verifier. */
  lemma OwnHeaderClaims(p: Platform, key: seq<Member>, kid: Text, jku: Option<Text>, entry: Value)
    requires Faithful(p, key)
    requires entry.Obj? && Get(entry.members, PROTECTED) == Str(ProtectedText(kid, jku))
    ensures Claims(p, entry, kid) && DecodeHeader(p, entry).value.0 == ProtectedText(kid, jku)
  {
    hide Print, Encode, Same, ToBase64Url, Claims, DecodeHeader, Faithful;
    var bytes := Encode(Print(ProtectedHeader(kid, jku)));
    OwnHeaderReadable(p, key, kid, jku);
    var w := p.parse(p.decode(bytes)).value;
    OwnHeaderFields(kid, jku, w);
    ReadableClaims(p, entry, bytes, w, kid);
  }

  lemma OwnHeaderFields(kid: Text, jku: Option<Text>, w: Value)
    requires Same(ProtectedHeader(kid, jku), w)
    ensures OptionalProperty(w, ALG) == Str(ES256) && OptionalProperty(w, KID) == Str(kid)
  {
    hide Same;
    HeaderMembers(kid, jku);
    SameStrings(ProtectedHeader(kid, jku), w, ALG);
    SameStrings(ProtectedHeader(kid, jku), w, KID);
  }

  lemma ReadableClaims(p: Platform, entry: Value, bytes: Bytes, w: Value, kid: Text)
    requires Property(entry, PROTECTED) == Some(Str(ToBase64Url(bytes)))
    requires p.parse(p.decode(bytes)) == Some(w)
    requires OptionalProperty(w, ALG) == Str(ES256) && OptionalProperty(w, KID) == Str(kid)
    ensures DecodeHeader(p, entry) == Some((ToBase64Url(bytes), w)) && Claims(p, entry, kid)
  {
    RoundTrip(bytes);
  }

  /** The signature entry made for a card is valid for that card after the wire. */
  lemma OwnEntryValid(p: Platform, key: seq<Member>, card: seq<Member>, jku: Option<Text>, salt: nat,
                      kid: Text, entry: Value, received: seq<Member>)
    requires Faithful(p, key) && Thumbprint(p, key) == Some(kid)
    requires WellFormed(Obj(card)) && AllFinite(Unsigned(card))
    requires Plain(Unsigned(received)) && Same(Wire(Unsigned(card)), Unsigned(received))
    requires var text := ProtectedText(kid, jku);
      Same(SignatureObject(text, p.sign(key, SigningInput(card, text).value, salt)), entry)
    ensures SellerAttempt(p, received, PublicJwk(key), kid, entry) == Valid
  {
    var protectedText := ProtectedText(kid, jku);
    var input := SigningInput(card, protectedText).value;
    var signature := p.sign(key, input, salt);
    EntryFields(protectedText, signature, entry);
    OwnHeaderClaims(p, key, kid, jku, entry);
    ReceivedInput(card, received, protectedText);
    PublicHalf(p, key);
    ValidIntro(p, received, PublicJwk(key), kid, entry, protectedText, signature, input);
  }

  lemma EntryFields(protectedText: Text, signature: Bytes, entry: Value)
    requires Same(SignatureObject(protectedText, signature), entry)
    ensures entry.Obj? && Get(entry.members, PROTECTED) == Str(protectedText)
    ensures SignatureBytes(entry) == Some(signature)
  {
    SameStrings(SignatureObject(protectedText, signature), entry, PROTECTED);
    SameStrings(SignatureObject(protectedText, signature), entry, SIGNATURE);
    SignatureField(entry, signature);
  }

  lemma SignatureField(entry: Value, signature: Bytes)
    requires entry.Obj? && Get(entry.members, SIGNATURE) == Str(ToBase64Url(signature))
    ensures SignatureBytes(entry) == Some(signature)
  {
    hide ToBytes, ToBase64Url;
    RoundTrip(signature);
  }

  lemma ValidIntro(p: Platform, received: seq<Member>, jwk: seq<Member>, kid: Text, entry: Value,
                   text: Text, signature: Bytes, input: Bytes)
    requires Claims(p, entry, kid) && DecodeHeader(p, entry).value.0 == text
    requires SignatureBytes(entry) == Some(signature) && SigningInput(received, text) == Some(input)
    requires p.verify(Obj(PublicJwk(jwk)), signature, input)
    ensures SellerAttempt(p, received, jwk, kid, entry) == Valid
  {
  }

  /** The received card gives the same bytes to verify as the signed one gave to sign. */
  lemma ReceivedInput(card: seq<Member>, received: seq<Member>, protectedText: Text)
    requires WellFormed(Obj(card)) && AllFinite(Unsigned(card))
    requires Plain(Unsigned(received)) && Same(Wire(Unsigned(card)), Unsigned(received))
    ensures SigningInput(received, protectedText) == SigningInput(card, protectedText)
  {
    UnsignedWellFormed(card);
    WirePlain(Unsigned(card));
    WirePrints(Unsigned(card));
    SamePrints(Wire(Unsigned(card)), Unsigned(received));
  }

  /** The entry claims the key, and its signature is not base64url. */
  predicate BadClaim(p: Platform, entry: Value, kid: Text) { Claims(p, entry, kid) && SignatureBytes(entry).None? }

  /** Some entry is a bad claim, and none before it verifies. */
  ghost predicate Blocked(p: Platform, received: seq<Member>, key: seq<Member>, kid: Text, entries: seq<Value>) {
    exists i :: 0 <= i < |entries| && BadClaim(p, entries[i], kid)
      && forall j | 0 <= j < i :: SellerAttempt(p, received, PublicJwk(key), kid, entries[j]) != Valid
  }

  /**
   A signed card that crosses the wire (undefined members dropped, undefined items turned to
   null, members permuted) and carries other signatures as well is accepted by both
   verifiers, unless an earlier entry claims the key with a signature that does not decode
   and nothing before that entry verifies: then both throw.
   */
  lemma SignedCardAccepted(p: Platform, key: seq<Member>, card: seq<Member>, jku: Option<Text>, salt: nat,
                           received: Value,
                           before: seq<Value>, entry: Value, after: seq<Value>)
    requires Faithful(p, key) && WellFormed(Obj(card)) && SignCard(p, card, key, jku, salt).Some?
    requires received.Obj? && Plain(Unsigned(received.members))
      && Same(Wire(Unsigned(card)), Unsigned(received.members))
    requires Get(received.members, SIGNATURES) == Arr(before + [entry] + after)
    requires var text := ProtectedText(Thumbprint(p, key).value, jku);
      Same(SignatureObject(text, p.sign(key, SigningInput(card, text).value, salt)), entry)
    ensures var kid := Thumbprint(p, key).value;
      var verdict := if Blocked(p, received.members, key, kid, before) then Throws else Accepted(kid);
      SellerVerdict(p, received, PublicJwk(key)) == verdict && BuyerVerdict(p, received, PublicJwk(key)) == verdict
  {
    var kid := Thumbprint(p, key).value;
    PublicHalf(p, key);
    OwnEntryValid(p, key, card, jku, salt, kid, entry, received.members);
    FiniteAgree(p, received, PublicJwk(key));
    Reached(p, received, PublicJwk(key), kid, before, entry, after);
    BlockedIff(p, received.members, key, kid, before);
  }

  /** With a payload that can be canonicalized, only bad claims throw. */
  lemma BlockedIff(p: Platform, received: seq<Member>, key: seq<Member>, kid: Text, entries: seq<Value>)
    requires Plain(Unsigned(received))
    ensures Decide(entries, e => SellerAttempt(p, received, PublicJwk(key), kid, e), kid) == Throws
       <==> Blocked(p, received, key, kid, entries)
  {
    hide Claims, SignatureBytes;
    var f := e => SellerAttempt(p, received, PublicJwk(key), kid, e);
    DecideThrowsIff(entries, f, kid);
    forall i | 0 <= i < |entries| ensures f(entries[i]) == Throw <==> BadClaim(p, entries[i], kid) {
      PayloadPrints(received);
    }
  }

  lemma PayloadPrints(received: seq<Member>)
    requires Plain(Unsigned(received))
    ensures forall text :: SigningInput(received, text).Some?
  {
  }

  lemma Reached(p: Platform, received: Value, jwk: seq<Member>, kid: Text,
                before: seq<Value>, entry: Value, after: seq<Value>)
    requires received.Obj? && Get(received.members, SIGNATURES) == Arr(before + [entry] + after)
    requires Thumbprint(p, jwk) == Some(kid) && p.importable(Obj(PublicJwk(jwk)))
    requires SellerAttempt(p, received.members, jwk, kid, entry) == Valid
    ensures SellerVerdict(p, received, jwk)
         == if Decide(before, e => SellerAttempt(p, received.members, jwk, kid, e), kid) == Throws
            then Throws else Accepted(kid)
  {
    var entries := before + [entry] + after;
    DecideReaches(before, entry, after, e => SellerAttempt(p, received.members, jwk, kid, e), kid);
    VerdictOf(p, received, jwk, kid, entries);
  }

  lemma VerdictOf(p: Platform, card: Value, jwk: seq<Member>, kid: Text, entries: seq<Value>)
    requires card.Obj? && Get(card.members, SIGNATURES) == Arr(entries) && entries != []
    requires Thumbprint(p, jwk) == Some(kid) && p.importable(Obj(PublicJwk(jwk)))
    ensures SellerVerdict(p, card, jwk) == Decide(entries, e => SellerAttempt(p, card.members, jwk, kid, e), kid)
  {
    hide Thumbprint, SellerAttempt, PublicJwk;
  }

  // --------------------------------------------------------------- the inputs that differ

  const BANG: CodeUnit := 33

  /** An entry with the seller's own protected header and "!" for a signature. */
  function BadEntry(kid: Text, jku: Option<Text>): Value {
    Obj([Member(PROTECTED, Str(ProtectedText(kid, jku))), Member(SIGNATURE, Str([BANG]))])
  }

  lemma BadEntryIsBad(p: Platform, key: seq<Member>, kid: Text, jku: Option<Text>)
    requires Faithful(p, key)
    ensures BadClaim(p, BadEntry(kid, jku), kid)
  {
    hide Claims, SignatureBytes, ProtectedText, Faithful;
    TwoMembers(PROTECTED, Str(ProtectedText(kid, jku)), SIGNATURE, Str([BANG]));
    OwnHeaderClaims(p, key, kid, jku, BadEntry(kid, jku));
    BangIsUndecodable(BadEntry(kid, jku));
  }

  lemma TwoMembers(k: Text, v: Value, l: Text, w: Value)
    requires k != l
    ensures var members := [Member(k, v), Member(l, w)];
      Get(members, k) == v && Get(members, l) == w
  {
    var members := [Member(k, v), Member(l, w)];
    assert Get(members, l) == Get(members[1..], l) && members[1..][0] == Member(l, w);
  }

  lemma BangIsUndecodable(entry: Value)
    requires entry.Obj? && Get(entry.members, SIGNATURE) == Str([BANG])
    ensures SignatureBytes(entry).None?
  {
    hide ToBytes;
    PaddingOneOver([BANG]);
  }

  /**
   Put in front of any signatures of any card, signed or not, that entry makes both
   verifiers throw, so a good signature behind it does not help.
   */
  lemma BadEntryBlocks(p: Platform, key: seq<Member>, jku: Option<Text>, card: Value, rest: seq<Value>)
    requires Faithful(p, key) && Thumbprint(p, key).Some?
    requires card.Obj? && Get(card.members, SIGNATURES) == Arr([BadEntry(Thumbprint(p, key).value, jku)] + rest)
    ensures SellerVerdict(p, card, PublicJwk(key)) == Throws && BuyerVerdict(p, card, PublicJwk(key)) == Throws
  {
    hide Claims, SignatureBytes, Faithful, BadEntry, SellerVerdict, BuyerVerdict, SellerAttempt, AllFinite, Unsigned,
         Thumbprint, Decide, PublicJwk;
    var kid := Thumbprint(p, key).value;
    var entries := [BadEntry(kid, jku)] + rest;
    var pub := PublicJwk(key);
    PublicHalf(p, key);
    KeyImports(p, key);
    BadEntryIsBad(p, key, kid, jku);
    VerdictOf(p, card, pub, kid, entries);
    BadClaimThrows(p, card.members, pub, kid, entries[0]);
    FirstThrows(entries, e => SellerAttempt(p, card.members, pub, kid, e), kid);
    if AllFinite(Unsigned(MembersOf(card))) {
      FiniteAgree(p, card, pub);
    } else {
      NonFiniteVerdicts(p, card, pub);
    }
  }

  lemma BadClaimThrows(p: Platform, members: seq<Member>, jwk: seq<Member>, kid: Text, entry: Value)
    requires BadClaim(p, entry, kid)
    ensures SellerAttempt(p, members, jwk, kid, entry) == Throw
  {
  }

  lemma FirstThrows(entries: seq<Value>, f: Value -> Attempt, kid: Text)
    requires entries != [] && f(entries[0]) == Throw
    ensures Decide(entries, f, kid) == Throws
  {
  }

  lemma KeyImports(p: Platform, key: seq<Member>)
    requires Faithful(p, key)
    ensures p.importable(Obj(PublicJwk(PublicJwk(key)))) && p.importable(Obj(PublicJwk(key)))
  {
    PublicHalf(p, key);
  }

  /** A card with a number too large for a double, and a signature entry that is null. */
  const HUGE_CARD: Value := Obj([Member(X, Num(NonFinite)), Member(SIGNATURES, Arr([Null]))])

  /** On it the verifiers differ: the seller rejects, the buyer throws. */
  lemma HugeCardDiffers(p: Platform, jwk: seq<Member>)
    requires p.importable(Obj(PublicJwk(jwk))) && Thumbprint(p, jwk).Some?
    ensures SellerVerdict(p, HUGE_CARD, jwk) == Rejected(CardSignatureInvalid)
    ensures BuyerVerdict(p, HUGE_CARD, jwk) == Throws
  {
    hide Thumbprint, AllFinite, Unsigned, Claims, SellerVerdict, BuyerVerdict, PublicJwk;
    HugeIsNotFinite();
    TwoMembers(X, Num(NonFinite), SIGNATURES, Arr([Null]));
    NullClaimsNothing(p, Thumbprint(p, jwk).value);
    NonFiniteVerdicts(p, HUGE_CARD, jwk);
  }

  lemma HugeIsNotFinite()
    ensures X != SIGNATURES && !AllFinite(Unsigned(MembersOf(HUGE_CARD)))
  {
    assert X[0] != SIGNATURES[0];
    var rest := Unsigned(HUGE_CARD.members).members;
    assert rest[0] in rest && rest[0].value == Num(NonFinite);
  }

  lemma NullClaimsNothing(p: Platform, kid: Text)
    ensures !Claims(p, Null, kid)
  {
  }
}
