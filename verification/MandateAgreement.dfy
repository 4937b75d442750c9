/**
 What the two mandate checks promise each other: identity is judged before authorization,
 the header carries an ASCII mandate unchanged, and the seller accepts what the buyer
 accepts, except for values that only the buyer reads.
 */
module MandateAgreement {
  import opened Options
  import opened Json
  import opened Utf8
  import opened Base64Url
  import opened Mandate
  import opened MandateCodes

  // --------------------------------------------------------------- identity first

  /** The agent is who it claims to be, and is the account that pays. */
  predicate Identified(w: World, m: Value, payer: Option<Text>) {
    var buyer := OptionalProperty(Body(m), BUYER);
    var recovered := w.recover(w.stringify(Body(m)), Signature(m));
    && buyer.Str? && recovered.Some? && w.lower(recovered.value) == w.lower(buyer.text)
    && (payer.Some? && payer.value != [] ==> w.lower(payer.value) == w.lower(buyer.text))
  }

  /** The mandate allows this purchase, of this seller, now. */
  predicate Authorized(w: World, m: Value, price: Option<int>, expected: Option<Text>, now: int) {
    var body := Body(m);
    var expiry := OptionalProperty(body, EXPIRY);
    && expiry.Str? && !HasPassed(w.dateParse(expiry.text), now)
    && !AtMostZero(w, OptionalProperty(body, MAX_PER_CALL)) && !AtMostZero(w, OptionalProperty(body, DAILY_CAP))
    && !TooDear(w, price, OptionalProperty(body, MAX_PER_CALL))
    && !Elsewhere(w, expected, OptionalProperty(body, SELLER))
  }

  /**
   Whatever else is wrong with a decodable, well-typed mandate, a failure of identity is
   answered with 401, and only such a failure is; and what is accepted is exactly what is
   readable, identified and authorized.
   */
  lemma IdentityBeforeAuthorization(w: World, header: Text, price: Option<int>, payer: Option<Text>,
                                    expected: Option<Text>, now: int)
    ensures var r := VerifyPresented(w, header, price, payer, expected, now);
      var m := DecodeHeader(w, header);
      var readable := m.Some? && WellTyped(Body(m.value));
      && (r.Accepted? <==> readable && Identified(w, m.value, payer) && Authorized(w, m.value, price, expected, now))
      && (r.Accepted? ==> Some(r.mandate) == m)
      && (r.Rejected? && r.status == 401 <==> readable && !Identified(w, m.value, payer))
      && (r.Rejected? ==> r.status == 401 || r.status == 403)
      && (r == Rejected(403, "mandate_malformed") <==> !readable)
  {
    hide DecodeHeader, OptionalProperty;
  }

  // --------------------------------------------------------- the way of the header

  lemma {:induction false} ReplaceAbsent(t: Text, old': CodeUnit, new': CodeUnit)
    requires old' !in t
    ensures Replace(t, old', new') == t
  {
  }

  lemma PadsAreEquals(n: nat)
    ensures forall u | u in Pads(n) :: u == EQUALS
  {
  }

  /** The standard alphabet has neither of the two URL characters. */
  lemma BtoaUnreplaced(b: Bytes)
    ensures FromUrl(Btoa(b)) == Btoa(b)
  {
    var n := (3 - |b| % 3) % 3;
    LettersAreLetters(b);
    PadsAreEquals(n);
    forall u | u in Btoa(b) ensures u != DASH && u != UNDERSCORE {
      assert u in Letters(b) || u in Pads(n);
    }
    ReplaceAbsent(Btoa(b), DASH, PLUS);
    ReplaceAbsent(Btoa(b), UNDERSCORE, SLASH);
  }

  lemma AtobBtoa(b: Bytes)
    ensures Atob(Btoa(b)) == Some(b)
  {
    hide Letters, Atob, Padding, LettersToBytes;
    LettersAreLetters(b);
    LettersLength(b);
    AtobOfLetters(Letters(b));
    LettersBack(b);
    PaddingOf(b);
  }

  lemma PaddingOf(b: Bytes)
    ensures Padding(|Letters(b)|) == Pads((3 - |b| % 3) % 3) && |Letters(b)| % 4 != 1
  {
    hide Letters, Padding;
    LettersLength(b);
    PaddingIs(|Letters(b)|);
    PadCount(|b|);
  }

  lemma PadCount(n: nat)
    ensures Pads((3 - n % 3) % 3) == if n % 3 == 0 then [] else if n % 3 == 1 then [EQUALS, EQUALS] else [EQUALS]
  {
    var k := (3 - n % 3) % 3;
    assert k == if n % 3 == 0 then 0 else if n % 3 == 1 then 2 else 1;
    assert Pads(0) == [] && Pads(1) == [EQUALS] && Pads(2) == [EQUALS, EQUALS];
  }

  /** `undefined` members are dropped on the way, so reading one gives undefined either way. */
  function Received(v: Value): Value { if v.Undefined? then Undefined else Wire(v) }

  lemma {:induction false} GetWire(members: seq<Member>, key: Text)
    requires UniqueKeys(members)
    ensures Get(WireMembers(members), key) == Received(Get(members, key))
  {
    if members != [] {
      var rest := members[1..];
      forall i, j | 0 <= i < j < |rest| ensures rest[i].key != rest[j].key {
        assert members[i + 1].key != members[j + 1].key;
      }
      GetWire(rest, key);
      if members[0].key == key && members[0].value.Undefined? {
        GetAbsent(rest, key) by {
          forall k | 0 <= k < |rest| ensures rest[k].key != key { assert members[0].key != members[k + 1].key; }
        }
      }
    }
  }

  lemma {:induction false} GetAbsent(members: seq<Member>, key: Text)
    requires forall k | 0 <= k < |members| :: members[k].key != key
    ensures Get(members, key) == Undefined
  {
    if members != [] { GetAbsent(members[1..], key); }
  }

  lemma PropertyWire(v: Value, key: Text)
    requires WellFormed(v)
    ensures OptionalProperty(Wire(v), key) == Received(OptionalProperty(v, key))
  {
    if v.Obj? { GetWire(v.members, key); }
  }

  lemma {:induction false} WellFormedMember(members: seq<Member>, key: Text)
    requires forall m | m in members :: WellFormed(m.value)
    ensures WellFormed(Get(members, key))
  {
    if members != [] { WellFormedMember(members[1..], key); }
  }

  /** What JSON.stringify and JSON.parse do with this mandate. */
  ghost predicate RoundTrips(w: World, m: Value) {
    && w.parse(w.stringify(m)) == Some(Wire(m))
    && w.stringify(Wire(Body(m))) == w.stringify(Body(m))
  }

  /** The header of a mandate with an ASCII text decodes to the same mandate. */
  lemma HeaderDecodes(w: World, m: Value)
    requires WellFormed(m) && Truthy(Body(m)) && Truthy(Signature(m)) && RoundTrips(w, m) && Ascii(w.stringify(m))
    ensures DecodeHeader(w, HeaderOf(w, m)) == Some(Wire(m))
    ensures Body(Wire(m)) == Wire(Body(m)) && Signature(Wire(m)) == Wire(Signature(m))
    ensures w.stringify(Body(Wire(m))) == w.stringify(Body(m))
  {
    hide Btoa, Atob, FromUrl, Encode, OptionalProperty, WellFormed;
    var text := w.stringify(m);
    AsciiEncode(text);
    BtoaUnreplaced(Encode(text));
    AtobBtoa(Encode(text));
    PropertyWire(m, BODY);
    PropertyWire(m, SIGNATURE);
  }

  const ACUTE_E: CodeUnit := 0xE9

  /** UTF-8 takes more bytes than there are code units, unless the text is ASCII. */
  lemma {:induction false} EncodeLength(s: Text)
    ensures |Encode(s)| >= |s|
    ensures Ascii(s) <==> |Encode(s)| == |s|
    decreases |s|
  {
    hide EncodePoint, FirstPoint;
    if s != [] {
      var n := |FirstPoint(s)|;
      EncodeLength(s[n..]);
      PointLength(s);
      assert s == s[..n] + s[n..];
    }
  }

  lemma PointLength(s: Text)
    requires s != []
    ensures var n := |FirstPoint(s)|;
      n <= |s| && |EncodePoint(s)| >= n && (|EncodePoint(s)| == n <==> Ascii(s[..n]))
  {
  }

  /** The seller reads the text the buyer wrote exactly if it is ASCII: `atob` does not decode UTF-8. */
  lemma ReadAsWritten(w: World, m: Value)
    ensures var text := w.stringify(m);
      Atob(FromUrl(HeaderOf(w, m))) == Some(text) <==> Ascii(text)
  {
    hide Btoa, Atob, FromUrl, Encode;
    var text := w.stringify(m);
    BtoaUnreplaced(Encode(text));
    AtobBtoa(Encode(text));
    EncodeLength(text);
    if Ascii(text) { AsciiEncode(text); }
  }

  /** The input: a text with an accented e, of which the seller reads two characters. */
  lemma AccentArrivesAsTwo(w: World, m: Value)
    requires ACUTE_E in w.stringify(m)
    ensures var text := w.stringify(m);
      Atob(FromUrl(HeaderOf(w, m))) == Some(Encode(text)) && Encode(text) != text
    ensures Encode([ACUTE_E]) == [0xC3, 0xA9]
  {
    hide Btoa, Atob, FromUrl;
    var text := w.stringify(m);
    BtoaUnreplaced(Encode(text));
    AtobBtoa(Encode(text));
    EncodeLength(text);
    assert Encode([ACUTE_E]) == EncodePoint([ACUTE_E]) + Encode([]);
  }

  // --------------------------------------------------------------------- agreement

  /** What the seller asks for beyond what the buyer checks. */
  predicate SellerReads(m: Value) {
    var body := Body(m);
    && OptionalProperty(body, EXPIRY).Str?
    && IsNumber(OptionalProperty(body, MAX_PER_CALL)) && OptionalProperty(body, MAX_PER_CALL).num.Finite?
    && IsNumber(OptionalProperty(body, DAILY_CAP)) && OptionalProperty(body, DAILY_CAP).num.Finite?
  }

  predicate PayerIsHolder(w: World, m: Value, payer: Option<Text>) {
    var buyer := OptionalProperty(Body(m), BUYER);
    payer.Some? && payer.value != [] && buyer.Str? ==> w.lower(payer.value) == w.lower(buyer.text)
  }

  /**
   A mandate the buyer accepts, with the price in its scope, is accepted by the seller at
   time t exactly if its expiry is a string and its caps are finite numbers, t is before the
   expiry, the payer is the holder and the seller it names is this one.
   */
  lemma SellerAgrees(w: World, m: Value, price: Option<int>, payer: Option<Text>, expected: Option<Text>, now: int,
                     t: int)
    requires WellFormed(m) && Signature(m).Str? && RoundTrips(w, m) && Ascii(w.stringify(m))
    requires VerifyMandate(w, m, now) == Valid && PriceInScope(w, m, price)
    ensures var body := Body(m);
      var expiry := DateOf(w, OptionalProperty(body, EXPIRY));
      VerifyPresented(w, HeaderOf(w, m), price, payer, expected, t).Accepted? <==>
        && SellerReads(m) && t < expiry.value && PayerIsHolder(w, m, payer)
        && !OtherSeller(w, expected, OptionalProperty(body, SELLER))
  {
    hide DecodeHeader, OptionalProperty, OtherSeller, WellFormed, VerifyPresented, HeaderOf, Wire, Above, NotPositive,
      AtMostZero, TooDear, Elsewhere;
    HeaderDecodes(w, m);
    IdentityBeforeAuthorization(w, HeaderOf(w, m), price, payer, expected, t);
    BodyWire(m);
    SignatureWire(m);
    var body, received := Body(m), Body(Wire(m));
    FieldWire(OptionalProperty(body, BUYER));
    FieldWire(OptionalProperty(body, EXPIRY));
    FieldWire(OptionalProperty(body, MAX_PER_CALL));
    FieldWire(OptionalProperty(body, DAILY_CAP));
    SellerWire(w, expected, OptionalProperty(body, SELLER));
    ChecksAre(w, price, OptionalProperty(body, MAX_PER_CALL), expected, OptionalProperty(body, SELLER));
    ChecksAre(w, price, OptionalProperty(received, MAX_PER_CALL), expected, OptionalProperty(received, SELLER));
    ChecksAre(w, price, OptionalProperty(body, DAILY_CAP), expected, OptionalProperty(body, SELLER));
    ChecksAre(w, price, OptionalProperty(received, DAILY_CAP), expected, OptionalProperty(received, SELLER));
  }

  /** A mandate whose expiry is a number. */
  function NumericExpiry(holder: Text, signature: Text, expiry: int, cap: int): Value {
    Obj([
      Member(BODY, Obj([
        Member(BUYER, Str(holder)), Member(MAX_PER_CALL, Num(Finite(cap))),
        Member(DAILY_CAP, Num(Finite(cap))), Member(EXPIRY, Num(Finite(expiry)))])),
      Member(SIGNATURE, Str(signature))])
  }

  /**
   The input on which the two sides differ: a numeric expiry in the future, which
   `new Date` takes as a time. The buyer finds the mandate valid, the seller malformed.
   */
  lemma NumericExpiryRefused(w: World, holder: Text, signature: Text, expiry: int, cap: int, price: Option<int>,
                             payer: Option<Text>, expected: Option<Text>, now: int, t: int)
    requires var m := NumericExpiry(holder, signature, expiry, cap);
      && RoundTrips(w, m) && Ascii(w.stringify(m)) && w.recover(w.stringify(Body(m)), Str(signature)) == Some(holder)
    requires signature != [] && w.dateOf(Num(Finite(expiry))) == Some(expiry) && now < expiry
    requires cap > 0 && (price.Some? ==> price.value <= cap)
    ensures var m := NumericExpiry(holder, signature, expiry, cap);
      && VerifyMandate(w, m, now) == Valid && PriceInScope(w, m, price)
      && VerifyPresented(w, HeaderOf(w, m), price, payer, expected, t) == Rejected(403, "mandate_malformed")
  {
    hide DecodeHeader, VerifyPresented, HeaderOf, Wire, Body, Signature, OptionalProperty, NumericExpiry, WellFormed;
    var m := NumericExpiry(holder, signature, expiry, cap);
    NumericFields(holder, signature, expiry, cap);
    HeaderDecodes(w, m);
    IdentityBeforeAuthorization(w, HeaderOf(w, m), price, payer, expected, t);
    BodyWire(m);
    FieldWire(Num(Finite(expiry)));
  }

  lemma NumericFields(holder: Text, signature: Text, expiry: int, cap: int)
    ensures var m := NumericExpiry(holder, signature, expiry, cap);
      && WellFormed(m) && Truthy(m) && Truthy(Body(m)) && Signature(m) == Str(signature)
      && OptionalProperty(Body(m), BUYER) == Str(holder)
      && OptionalProperty(Body(m), MAX_PER_CALL) == Num(Finite(cap))
      && OptionalProperty(Body(m), DAILY_CAP) == Num(Finite(cap))
      && OptionalProperty(Body(m), EXPIRY) == Num(Finite(expiry))
  {
    hide Get, WellFormed;
    var m := NumericExpiry(holder, signature, expiry, cap);
    var body, last := m.members[0], m.members[1];
    assert BODY[0] != SIGNATURE[0];
    SkipMember(body, [last], SIGNATURE);
    FoundMember(last, [], SIGNATURE);
    FoundMember(body, [last], BODY);
    assert [body] + [last] == m.members && [last] + [] == [last];
    NumericBody(holder, expiry, cap);
    assert WellFormed(m) by { TwoMembersWellFormed(body, last); }
  }

  lemma NumericBody(holder: Text, expiry: int, cap: int)
    ensures var body := NumericExpiry(holder, [], expiry, cap).members[0].value;
      && WellFormed(body)
      && Get(body.members, BUYER) == Str(holder) && Get(body.members, MAX_PER_CALL) == Num(Finite(cap))
      && Get(body.members, DAILY_CAP) == Num(Finite(cap)) && Get(body.members, EXPIRY) == Num(Finite(expiry))
  {
    hide Get, WellFormed;
    var members := NumericExpiry(holder, [], expiry, cap).members[0].value.members;
    var buyer, limit, daily, last := members[0], members[1], members[2], members[3];
    assert BUYER[0] != MAX_PER_CALL[0] && BUYER[0] != DAILY_CAP[0] && BUYER[0] != EXPIRY[0];
    assert MAX_PER_CALL[0] != DAILY_CAP[0] && MAX_PER_CALL[0] != EXPIRY[0] && DAILY_CAP[0] != EXPIRY[0];
    assert [buyer] + [limit, daily, last] == members && [limit] + [daily, last] == [limit, daily, last];
    assert [daily] + [last] == [daily, last] && [last] + [] == [last];
    FoundMember(buyer, [limit, daily, last], BUYER);
    forall key | key != BUYER ensures Get(members, key) == Get([limit, daily, last], key) {
      SkipMember(buyer, [limit, daily, last], key);
    }
    FoundMember(limit, [daily, last], MAX_PER_CALL);
    forall key | key != MAX_PER_CALL ensures Get([limit, daily, last], key) == Get([daily, last], key) {
      SkipMember(limit, [daily, last], key);
    }
    FoundMember(daily, [last], DAILY_CAP);
    SkipMember(daily, [last], EXPIRY);
    FoundMember(last, [], EXPIRY);
    assert WellFormed(Obj(members)) by { ScalarMembersWellFormed(members); }
  }

  lemma ScalarMembersWellFormed(members: seq<Member>)
    requires UniqueKeys(members) && forall m | m in members :: m.value.Str? || m.value.Num?
    ensures WellFormed(Obj(members))
  {
  }

  lemma TwoMembersWellFormed(a: Member, b: Member)
    requires a.key != b.key && WellFormed(a.value) && WellFormed(b.value)
    ensures WellFormed(Obj([a, b]))
  {
  }

  lemma FoundMember(m: Member, rest: seq<Member>, key: Text)
    requires m.key == key
    ensures Get([m] + rest, key) == m.value
  {
  }

  lemma SkipMember(m: Member, rest: seq<Member>, key: Text)
    requires m.key != key
    ensures Get([m] + rest, key) == Get(rest, key)
  {
    assert ([m] + rest)[1..] == rest;
  }

  /** The wire keeps strings and finite numbers, and makes neither of anything else. */
  lemma FieldWire(v: Value)
    ensures Received(v).Str? <==> v.Str?
    ensures Received(v).Num? <==> v.Num? && v.num.Finite?
    ensures v.Str? || (v.Num? && v.num.Finite?) ==> Received(v) == v
  {
  }

  lemma SellerWire(w: World, expected: Option<Text>, seller: Value)
    ensures OtherSeller(w, expected, Received(seller)) == OtherSeller(w, expected, seller)
  {
    FieldWire(seller);
  }

  lemma SignatureWire(m: Value)
    requires Signature(m).Str?
    ensures Wire(Signature(m)) == Signature(m)
  {
  }

  /** The fields of the body that the seller reads are the fields the buyer wrote. */
  lemma BodyWire(m: Value)
    requires WellFormed(m)
    ensures forall key :: OptionalProperty(Wire(Body(m)), key) == Received(OptionalProperty(Body(m), key))
  {
    hide OptionalProperty;
    assert WellFormed(Body(m)) by { BodyWellFormed(m); }
    forall key ensures OptionalProperty(Wire(Body(m)), key) == Received(OptionalProperty(Body(m), key)) {
      PropertyWire(Body(m), key);
    }
  }

  lemma BodyWellFormed(m: Value)
    requires WellFormed(m)
    ensures WellFormed(Body(m))
  {
    if m.Obj? { WellFormedMember(m.members, BODY); }
  }
}
