/**
 Signing and verifying the Agent Card: `signCard` and `verifyCard` of src/card-signing.ts,
 and the buyer's own `verifyCard` of buyer/card-verify.mjs.

 JSON.parse, TextDecoder, SHA-256 and ECDSA are parameters (`Platform`); what the results
 below assume about them is stated by `Faithful` and `OnlySigned`.
 */
module CardSigning {
  import opened Options
  import opened Json
  import opened Canonical
  import opened Utf8
  import opened Base64Url
  import opened Seqs

  datatype Platform = Platform(
    parse: Text -> Option<Value>,                 // JSON.parse; None when it throws
    decode: Bytes -> Text,                        // TextDecoder.decode
    digest: Bytes -> Bytes,                       // SHA-256
    importable: Value -> bool,                    // importKey accepts this public JWK
    verify: (Value, Bytes, Bytes) -> bool,        // public JWK, signature, message
    sign: (seq<Member>, Bytes, nat) -> Bytes      // private JWK, message, randomness
  )

  const ALG: Text := [97, 108, 103]
  const CRV: Text := [99, 114, 118]
  const ES256: Text := [69, 83, 50, 53, 54]
  const JKU: Text := [106, 107, 117]
  const JOSE: Text := [74, 79, 83, 69]
  const KID: Text := [107, 105, 100]
  const KTY: Text := [107, 116, 121]
  const PROTECTED: Text := [112, 114, 111, 116, 101, 99, 116, 101, 100]
  const SIGNATURE: Text := [115, 105, 103, 110, 97, 116, 117, 114, 101]
  const SIGNATURES: Text := SIGNATURE + [115]
  const TO_STRING: Text := [116, 111, 83, 116, 114, 105, 110, 103]
  const TYP: Text := [116, 121, 112]
  const X: Text := [120]
  const Y: Text := [121]
  const UNDEFINED_TEXT: Text := [117, 110, 100, 101, 102, 105, 110, 101, 100]
  const INFINITY_TEXT: Text := [73, 110, 102, 105, 110, 105, 116, 121]
  const OBJECT_TEXT: Text := [91, 111, 98, 106, 101, 99, 116, 32, 79, 98, 106, 101, 99, 116, 93]

  // --------------------------------------------------------- reading JavaScript values

  /** `String(v)` for parsed JSON; None when it throws, as for an object with its own `toString`. */
  function ToText(v: Value): Option<Text> {
    match v
    case Undefined => Some(UNDEFINED_TEXT)
    case Null => Some(NULL_TEXT)
    case Bool(b) => Some(if b then TRUE_TEXT else FALSE_TEXT)
    case Num(num) => Some(if num.Finite? then PrintInt(num.value) else INFINITY_TEXT)
    case Str(text) => Some(text)
    case Arr(items) => JoinText(items)
    case Obj(members) => if HasKey(members, TO_STRING) then None else Some(OBJECT_TEXT)
  }

  function JoinText(items: seq<Value>): Option<Text> {
    if items == [] then Some([])
    else
      var first := if items[0].Null? || items[0].Undefined? then Some([]) else ToText(items[0]);
      if first.None? || |items| == 1 then first
      else
        var rest := JoinText(items[1..]);
        if rest.None? then None else Some(first.value + [COMMA] + rest.value)
  }

  function Without(members: seq<Member>, key: Text): seq<Member> {
    if members == [] then []
    else (if members[0].key == key then [] else [members[0]]) + Without(members[1..], key)
  }

  // ------------------------------------------------------------------------ signing

  function PublicJwk(jwk: seq<Member>): seq<Member> {
    [Member(KTY, Get(jwk, KTY)), Member(CRV, Get(jwk, CRV)), Member(X, Get(jwk, X)), Member(Y, Get(jwk, Y))]
  }

  /** The key thumbprint of RFC 7638; None when `canonicalize` throws. */
  function Thumbprint(p: Platform, jwk: seq<Member>): Option<Text> {
    match Canonicalize(Obj([Member(CRV, Get(jwk, CRV)), Member(KTY, Get(jwk, KTY)),
                            Member(X, Get(jwk, X)), Member(Y, Get(jwk, Y))]))
    case Printed(text) => Some(ToBase64Url(p.digest(Encode(text))))
    case _ => None
  }

  function Unsigned(card: seq<Member>): (r: Value)
    ensures r.Obj?
  {
    Obj(Without(card, SIGNATURES))
  }

  /** The signed bytes, section 5.1 of RFC 7515; None when `canonicalize` throws. */
  function SigningInput(card: seq<Member>, protectedText: Text): Option<Bytes> {
    match Canonicalize(Unsigned(card))
    case Printed(text) => Some(Encode(protectedText + [DOT] + ToBase64Url(Encode(text))))
    case _ => None
  }

  function ProtectedHeader(kid: Text, jku: Option<Text>): Value {
    Obj([Member(ALG, Str(ES256)), Member(TYP, Str(JOSE)), Member(KID, Str(kid))]
        + if jku.Some? && jku.value != [] then [Member(JKU, Str(jku.value))] else [])
  }

  function ProtectedText(kid: Text, jku: Option<Text>): Text {
    ToBase64Url(Encode(Print(ProtectedHeader(kid, jku))))
  }

  function SignatureObject(protectedText: Text, signature: Bytes): Value {
    Obj([Member(PROTECTED, Str(protectedText)), Member(SIGNATURE, Str(ToBase64Url(signature)))])
  }

  /** `signCard`, given a private key it can import; None when canonicalization throws. */
  function SignCard(p: Platform, card: seq<Member>, key: seq<Member>, jku: Option<Text>,
                    salt: nat): Option<seq<Member>> {
    var kid := Thumbprint(p, key);
    if kid.None? then None
    else
      var protectedText := ProtectedText(kid.value, jku);
      var input := SigningInput(card, protectedText);
      if input.None? then None
      else
        var signature := SignatureObject(protectedText, p.sign(key, input.value, salt));
        Some(Without(card, SIGNATURES) + [Member(SIGNATURES, Arr([signature]))])
  }

  // ---------------------------------------------------------------------- verifying

  datatype Reason = CardUnsigned | CardSignatureInvalid

  datatype Verdict = Accepted(kid: Text) | Rejected(reason: Reason) | Throws

  /** What one entry of `signatures` does to the loop. */
  datatype Attempt = Skip | Invalid | Valid | Throw

  /** The guarded decoding of the protected header; None when anything in it throws. */
  function DecodeHeader(p: Platform, entry: Value): Option<(Text, Value)> {
    match Property(entry, PROTECTED)
    case None => None
    case Some(v) =>
      match ToText(v)
      case None => None
      case Some(text) =>
        match ToBytes(text)
        case None => None
        case Some(bytes) =>
          match p.parse(p.decode(bytes))
          case None => None
          case Some(header) => Some((text, header))
  }

  /** Does this entry claim to be made with the expected key? */
  predicate Claims(p: Platform, entry: Value, kid: Text) {
    match DecodeHeader(p, entry)
    case None => false
    case Some((_, header)) =>
      OptionalProperty(header, ALG) == Str(ES256) && OptionalProperty(header, KID) == Str(kid)
  }

  function SignatureBytes(entry: Value): Option<Bytes> {
    var text := ToText(OptionalProperty(entry, SIGNATURE));
    if text.None? then None else ToBytes(text.value)
  }

  /** The seller's loop body. */
  function SellerAttempt(p: Platform, card: seq<Member>, jwk: seq<Member>, kid: Text, entry: Value): Attempt {
    if !Claims(p, entry, kid) then Skip
    else
      var signature := SignatureBytes(entry);
      var input := SigningInput(card, DecodeHeader(p, entry).value.0);
      if signature.None? || input.None? then Throw
      else if p.verify(Obj(PublicJwk(jwk)), signature.value, input.value) then Valid
      else Invalid
  }

  /** The buyer's loop body: the payload was encoded before the loop. */
  function BuyerAttempt(p: Platform, payload: Text, pub: seq<Member>, kid: Text, entry: Value): Attempt {
    if !Claims(p, entry, kid) then Skip
    else
      var signature := SignatureBytes(entry);
      if signature.None? then Throw
      else if p.verify(Obj(pub), signature.value, Encode(DecodeHeader(p, entry).value.0 + [DOT] + payload)) then Valid
      else Invalid
  }

  /** The loop over signatures: the first entry that verifies or throws decides. */
  function Decide(entries: seq<Value>, attempt: Value -> Attempt, kid: Text): Verdict {
    if entries == [] then Rejected(CardSignatureInvalid)
    else match attempt(entries[0])
      case Valid => Accepted(kid)
      case Throw => Throws
      case _ => Decide(entries[1..], attempt, kid)
  }

  /** The non-empty `signatures` array of a card, if it has one. */
  function SignaturesOf(card: Value): Option<seq<Value>> {
    match OptionalProperty(card, SIGNATURES)
    case Arr(items) => if items == [] then None else Some(items)
    case _ => None
  }

  function MembersOf(v: Value): seq<Member> { if v.Obj? then v.members else [] }

  function SellerVerdict(p: Platform, card: Value, jwk: seq<Member>): Verdict {
    match SignaturesOf(card)
    case None => Rejected(CardUnsigned)
    case Some(entries) =>
      var kid := Thumbprint(p, jwk);
      if !p.importable(Obj(PublicJwk(jwk))) || kid.None? then Throws
      else Decide(entries, entry => SellerAttempt(p, MembersOf(card), jwk, kid.value, entry), kid.value)
  }

  function BuyerVerdict(p: Platform, card: Value, jwk: seq<Member>): Verdict {
    match SignaturesOf(card)
    case None => Rejected(CardUnsigned)
    case Some(entries) =>
      var pub := PublicJwk(jwk);
      var kid := Thumbprint(p, pub);
      if !p.importable(Obj(pub)) || kid.None? then Throws
      else match Canonicalize(Unsigned(MembersOf(card)))
        case Printed(text) =>
          var payload := ToBase64Url(Encode(text));
          Decide(entries, entry => BuyerAttempt(p, payload, pub, kid.value, entry), kid.value)
        case _ => Throws
  }

  /** The seller's `verifyCard`, with its loop, its `continue`s and its early return. */
  method VerifyCard(p: Platform, card: Value, jwk: seq<Member>) returns (verdict: Verdict)
    ensures verdict == SellerVerdict(p, card, jwk)
  {
    hide Thumbprint, Canonicalize, ToText, ToBytes, PublicJwk;
    var signatures := SignaturesOf(card);
    if signatures.None? {
      return Rejected(CardUnsigned);
    }
    var entries := signatures.value;
    var kid := Thumbprint(p, jwk);
    if !p.importable(Obj(PublicJwk(jwk))) || kid.None? {
      return Throws;
    }
    ghost var attempt := entry => SellerAttempt(p, MembersOf(card), jwk, kid.value, entry);
    for i := 0 to |entries|
      invariant Decide(entries, attempt, kid.value) == Decide(entries[i..], attempt, kid.value)
    {
      assert entries[i..][0] == entries[i] && entries[i..][1..] == entries[i + 1..];
      var header := DecodeHeader(p, entries[i]);
      if header.None? {
        continue;
      }
      if OptionalProperty(header.value.1, ALG) != Str(ES256)
          || OptionalProperty(header.value.1, KID) != Str(kid.value) {
        continue;
      }
      var signature := SignatureBytes(entries[i]);
      var input := SigningInput(MembersOf(card), header.value.0);
      if signature.None? || input.None? {
        return Throws;
      }
      if p.verify(Obj(PublicJwk(jwk)), signature.value, input.value) {
        return Accepted(kid.value);
      }
    }
    return Rejected(CardSignatureInvalid);
  }

  /** The buyer's `verifyCard`: the payload is encoded once, before the loop. */
  method BuyerVerifyCard(p: Platform, card: Value, jwk: seq<Member>) returns (verdict: Verdict)
    ensures verdict == BuyerVerdict(p, card, jwk)
  {
    hide Thumbprint, Canonicalize, ToText, ToBytes, PublicJwk;
    var signatures := SignaturesOf(card);
    if signatures.None? {
      return Rejected(CardUnsigned);
    }
    var entries := signatures.value;
    var pub := PublicJwk(jwk);
    var kid := Thumbprint(p, pub);
    if !p.importable(Obj(pub)) || kid.None? {
      return Throws;
    }
    var canonical := Canonicalize(Unsigned(MembersOf(card)));
    if !canonical.Printed? {
      return Throws;
    }
    var payload := EncodeBase64Url(Encode(canonical.text));
    ghost var attempt := entry => BuyerAttempt(p, payload, pub, kid.value, entry);
    for i := 0 to |entries|
      invariant Decide(entries, attempt, kid.value) == Decide(entries[i..], attempt, kid.value)
    {
      assert entries[i..][0] == entries[i] && entries[i..][1..] == entries[i + 1..];
      var header := DecodeHeader(p, entries[i]);
      if header.None? {
        continue;
      }
      if OptionalProperty(header.value.1, ALG) != Str(ES256)
          || OptionalProperty(header.value.1, KID) != Str(kid.value) {
        continue;
      }
      var signature := SignatureBytes(entries[i]);
      if signature.None? {
        return Throws;
      }
      if p.verify(Obj(pub), signature.value, Encode(header.value.0 + [DOT] + payload)) {
        return Accepted(kid.value);
      }
    }
    return Rejected(CardSignatureInvalid);
  }
}
