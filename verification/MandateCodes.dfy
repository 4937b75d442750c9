/**
 The answers of both mandate checks, each with its exact condition on the mandate's fields:
 the seller's error codes, in the order in which it looks for them, and the buyer's reasons.
 */
module MandateCodes {
  import opened Options
  import opened Json
  import opened Base64Url
  import opened Mandate

  // ------------------------------------------------------------------ the conditions

  /** A cap that is zero or negative; what is no finite number compares as the platform says. */
  predicate AtMostZero(w: World, cap: Value) {
    match cap
    case Num(Finite(n)) => n <= 0
    case _ => w.atMostZero(cap)
  }

  /** The price is above the limit; a price that is no number is above nothing. */
  predicate TooDear(w: World, price: Option<int>, limit: Value) {
    match price
    case None => false
    case Some(p) =>
      match limit
      case Num(Finite(n)) => p > n
      case _ => w.less(limit, p)
  }

  predicate HasPassed(expiry: Option<int>, now: int) { expiry.None? || expiry.value <= now }

  /** Both the named seller and this one have an origin, and they differ. */
  predicate Elsewhere(w: World, expected: Option<Text>, seller: Value) {
    match (expected, seller)
    case (Some(mine), Str(named)) =>
      && |mine| > 0 && |named| > 0
      && (match (w.origin(mine), w.origin(named))
          case (Some(here), Some(there)) => |here| > 0 && |there| > 0 && here != there
          case _ => false)
    case _ => false
  }

  /** The text of the body was signed by the holder it names. */
  predicate SignedByHolder(w: World, m: Value) {
    match (w.recover(w.stringify(Body(m)), Signature(m)), OptionalProperty(Body(m), BUYER))
    case (Some(signer), Str(holder)) => w.lower(signer) == w.lower(holder)
    case _ => false
  }

  predicate PaidByAnother(w: World, m: Value, payer: Option<Text>) {
    match (payer, OptionalProperty(Body(m), BUYER))
    case (Some(p), Str(holder)) => |p| > 0 && w.lower(p) != w.lower(holder)
    case _ => false
  }

  /** What counts as missing: undefined, null, false, zero, NaN and the empty string. */
  lemma FalsyAre(v: Value)
    ensures !Truthy(v) <==>
      v == Undefined || v == Null || v == Bool(false) || v == Num(Finite(0)) || v == Num(NonFinite) || v == Str([])
  {
    match v
    case Bool(b) =>
    case Num(num) => assert num.Finite? ==> num == Finite(num.value);
    case _ =>
  }

  // ---------------------------------------------------------------------- the seller

  /** The header is base64 of JSON with a body, a signature, and fields of the types the seller asks for. */
  ghost predicate Readable(w: World, header: Text) {
    exists m :: IsText(w, header, m) && Truthy(Body(m)) && Truthy(Signature(m))
      && OptionalProperty(Body(m), BUYER).Str? && OptionalProperty(Body(m), EXPIRY).Str?
      && OptionalProperty(Body(m), MAX_PER_CALL).Num? && OptionalProperty(Body(m), DAILY_CAP).Num?
  }

  predicate IsText(w: World, header: Text, m: Value) {
    var text := Atob(FromUrl(header));
    text.Some? && w.parse(text.value) == Some(m)
  }

  /** Exactly the other headers are malformed. */
  lemma MalformedIff(w: World, header: Text, price: Option<int>, payer: Option<Text>, expected: Option<Text>, now: int)
    ensures VerifyPresented(w, header, price, payer, expected, now) == Rejected(403, "mandate_malformed")
       <==> !Readable(w, header)
    ensures Readable(w, header) <==> DecodeHeader(w, header).Some? && WellTyped(Body(DecodeHeader(w, header).value))
  {
    hide Atob, FromUrl, OptionalProperty, Truthy, NotPositive, Above, OtherSeller;
    var m := DecodeHeader(w, header);
    if m.Some? { assert IsText(w, header, m.value); }
  }

  /** The seller's answer to a readable mandate: the first failing check, or acceptance. */
  lemma SellerCodes(w: World, header: Text, price: Option<int>, payer: Option<Text>, expected: Option<Text>, now: int)
    requires DecodeHeader(w, header).Some? && WellTyped(Body(DecodeHeader(w, header).value))
    ensures var r := VerifyPresented(w, header, price, payer, expected, now);
      var m := DecodeHeader(w, header).value;
      var body := Body(m);
      var unsigned, foreign := !SignedByHolder(w, m), PaidByAnother(w, m, payer);
      var late := HasPassed(w.dateParse(OptionalProperty(body, EXPIRY).text), now);
      var empty :=
        AtMostZero(w, OptionalProperty(body, MAX_PER_CALL)) || AtMostZero(w, OptionalProperty(body, DAILY_CAP));
      var dear := TooDear(w, price, OptionalProperty(body, MAX_PER_CALL));
      var elsewhere := Elsewhere(w, expected, OptionalProperty(body, SELLER));
      && (r == Rejected(401, "identity_unverified") <==> unsigned)
      && (r == Rejected(401, "identity_mismatch") <==> !unsigned && foreign)
      && (r == Rejected(403, "mandate_expired") <==> !unsigned && !foreign && late)
      && (r == Rejected(403, "mandate_invalid_caps") <==> !unsigned && !foreign && !late && empty)
      && (r == Rejected(403, "mandate_scope_exceeded") <==> !unsigned && !foreign && !late && !empty && dear)
      && (r == Rejected(403, "mandate_wrong_seller") <==>
            !unsigned && !foreign && !late && !empty && !dear && elsewhere)
      && (r == Accepted(m) <==> !unsigned && !foreign && !late && !empty && !dear && !elsewhere)
  {
    hide DecodeHeader, OptionalProperty;
  }

  /** A price above a finite limit is never accepted, whatever else the mandate says. */
  lemma AboveLimitRejected(w: World, header: Text, price: int, limit: int, payer: Option<Text>,
                           expected: Option<Text>, now: int)
    requires DecodeHeader(w, header).Some? && price > limit
    requires OptionalProperty(Body(DecodeHeader(w, header).value), MAX_PER_CALL) == Num(Finite(limit))
    ensures VerifyPresented(w, header, Some(price), payer, expected, now).Rejected?
  {
    hide DecodeHeader, OptionalProperty;
  }

  // ----------------------------------------------------------------------- the buyer

  /** The buyer's answer, in its own order: the expiry before the signature. */
  lemma BuyerReasons(w: World, m: Value, now: int)
    ensures var v := VerifyMandate(w, m, now);
      var body := Body(m);
      var missing := !Truthy(m) || !Truthy(body) || !Truthy(Signature(m));
      var expiry := OptionalProperty(body, EXPIRY);
      var late := HasPassed(if expiry.Str? then w.dateParse(expiry.text) else w.dateOf(expiry), now);
      var readable := w.recover(w.stringify(body), Signature(m)).Some? && OptionalProperty(body, BUYER).Str?;
      var empty :=
        AtMostZero(w, OptionalProperty(body, MAX_PER_CALL)) || AtMostZero(w, OptionalProperty(body, DAILY_CAP));
      && (v == MissingFields <==> missing)
      && (v == Expired <==> !missing && late)
      && (v == SignatureError <==> !missing && !late && !readable)
      && (v == SignerMismatch <==> !missing && !late && readable && !SignedByHolder(w, m))
      && (v == InvalidCaps <==> !missing && !late && SignedByHolder(w, m) && empty)
      && (v == Valid <==> !missing && !late && SignedByHolder(w, m) && !empty)
  {
    hide OptionalProperty, Truthy;
  }

  /** What is in the buyer's scope: with a finite limit, the prices up to it. */
  lemma InScopeIff(w: World, m: Value, price: Option<int>)
    ensures var limit := OptionalProperty(Body(m), MAX_PER_CALL);
      && (PriceInScope(w, m, price) <==> !TooDear(w, price, limit))
      && (limit.Num? && limit.num.Finite? && price.Some? ==>
            (PriceInScope(w, m, price) <==> price.value <= limit.num.value))
  {
    hide OptionalProperty;
  }

  /** The checks of both sides are these conditions. */
  lemma ChecksAre(w: World, price: Option<int>, v: Value, expected: Option<Text>, seller: Value)
    ensures NotPositive(w, v) == AtMostZero(w, v) && Above(w, price, v) == TooDear(w, price, v)
    ensures OtherSeller(w, expected, seller) == Elsewhere(w, expected, seller)
  {
  }
}
