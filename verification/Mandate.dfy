/**
 The spending mandate on both sides: `verifyMandate` and `checkPriceInScope` of
 buyer/mandate.mjs, and `verifyPresentedMandate` of src/mandate.ts, which sees the mandate
 through the X-Agent-Mandate header.

 Prices and caps are in micro-USDC. A mandate is any JavaScript value a caller may pass; the
 platform's part (JSON text, addresses, dates, origins, comparisons of values that are not
 numbers) is a parameter.
 */
module Mandate {
  import opened Options
  import opened Json
  import opened Utf8
  import opened Base64Url

  datatype World = World(
    stringify: Value -> Text,                     // JSON.stringify
    parse: Text -> Option<Value>,                 // JSON.parse; None when it throws
    recover: (Text, Value) -> Option<Text>,       // recoverMessageAddress(message, signature)
    lower: Text -> Text,                          // toLowerCase
    dateParse: Text -> Option<int>,               // Date.parse; None for NaN
    dateOf: Value -> Option<int>,                 // new Date(v).getTime() for a value that is no string
    origin: Text -> Option<Text>,                 // normaliseOrigin
    atMostZero: Value -> bool,                    // v <= 0 for a value that is no finite number
    less: (Value, int) -> bool                    // p > v likewise
  )

  const BODY: Text := [98, 111, 100, 121]
  const SIGNATURE: Text := [115, 105, 103, 110, 97, 116, 117, 114, 101]
  const BUYER: Text := [98, 117, 121, 101, 114]
  const SELLER: Text := [115, 101, 108, 108, 101, 114]
  const MAX_PER_CALL: Text := [109, 97, 120, 95, 112, 101, 114, 95, 99, 97, 108, 108]
  const DAILY_CAP: Text := [100, 97, 105, 108, 121, 95, 99, 97, 112]
  const EXPIRY: Text := [101, 120, 112, 105, 114, 121]

  /** JavaScript's truthiness; a non-finite number stands for NaN. */
  predicate Truthy(v: Value) {
    match v
    case Undefined => false
    case Null => false
    case Bool(b) => b
    case Num(num) => num.Finite? && num.value != 0
    case Str(text) => text != []
    case _ => true
  }

  function Body(m: Value): Value { OptionalProperty(m, BODY) }

  function Signature(m: Value): Value { OptionalProperty(m, SIGNATURE) }

  predicate NotPositive(w: World, v: Value) {
    if v.Num? && v.num.Finite? then v.num.value <= 0 else w.atMostZero(v)
  }

  /** `price > v`; a price of None is NaN. */
  predicate Above(w: World, price: Option<int>, v: Value) {
    price.Some? && if v.Num? && v.num.Finite? then price.value > v.num.value else w.less(v, price.value)
  }

  function DateOf(w: World, v: Value): Option<int> { if v.Str? then w.dateParse(v.text) else w.dateOf(v) }

  // -------------------------------------------------------------------------- buyer

  datatype BuyerVerdict = Valid | MissingFields | Expired | SignatureError | SignerMismatch | InvalidCaps

  function VerifyMandate(w: World, m: Value, now: int): BuyerVerdict {
    var body := Body(m);
    if !Truthy(m) || !Truthy(body) || !Truthy(Signature(m)) then MissingFields
    else
      var expiry := DateOf(w, OptionalProperty(body, EXPIRY));
      if expiry.None? || now >= expiry.value then Expired
      else
        var recovered := w.recover(w.stringify(body), Signature(m));
        var buyer := OptionalProperty(body, BUYER);
        if recovered.None? || !buyer.Str? then SignatureError
        else if w.lower(recovered.value) != w.lower(buyer.text) then SignerMismatch
        else if NotPositive(w, OptionalProperty(body, MAX_PER_CALL))
            || NotPositive(w, OptionalProperty(body, DAILY_CAP))
        then InvalidCaps
        else Valid
  }

  predicate PriceInScope(w: World, m: Value, price: Option<int>) {
    !Above(w, price, OptionalProperty(Body(m), MAX_PER_CALL))
  }

  /** `Buffer.from(JSON.stringify(mandate), "utf8").toString("base64")` */
  function HeaderOf(w: World, m: Value): Text { Btoa(Encode(w.stringify(m))) }

  // ------------------------------------------------------------------------- seller

  datatype SellerVerdict = Accepted(mandate: Value) | Rejected(status: int, error: string)

  /** What `atob` returns has one code unit per byte, whatever the bytes encode. */
  function DecodeHeader(w: World, header: Text): Option<Value> {
    match Atob(FromUrl(header))
    case None => None
    case Some(bytes) =>
      match w.parse(bytes)
      case None => None
      case Some(m) => if Truthy(Body(m)) && Truthy(Signature(m)) then Some(m) else None
  }

  predicate IsNumber(v: Value) { v.Num? }

  /** The types that the seller asks for. */
  predicate WellTyped(body: Value) {
    && OptionalProperty(body, BUYER).Str? && OptionalProperty(body, EXPIRY).Str?
    && IsNumber(OptionalProperty(body, MAX_PER_CALL)) && IsNumber(OptionalProperty(body, DAILY_CAP))
  }

  predicate OtherSeller(w: World, expected: Option<Text>, seller: Value) {
    && expected.Some? && expected.value != [] && seller.Str? && seller.text != []
    && var named, mine := w.origin(seller.text), w.origin(expected.value);
      named.Some? && named.value != [] && mine.Some? && mine.value != [] && named != mine
  }

  /** `verifyPresentedMandate`. */
  function VerifyPresented(w: World, header: Text, price: Option<int>, payer: Option<Text>,
                           expected: Option<Text>, now: int): SellerVerdict
  {
    match DecodeHeader(w, header)
    case None => Rejected(403, "mandate_malformed")
    case Some(m) =>
      var body := Body(m);
      if !WellTyped(body) then Rejected(403, "mandate_malformed")
      else
        var buyer := w.lower(OptionalProperty(body, BUYER).text);
        var recovered := w.recover(w.stringify(body), Signature(m));
        if recovered.None? then Rejected(401, "identity_unverified")
        else if w.lower(recovered.value) != buyer then Rejected(401, "identity_unverified")
        else if payer.Some? && payer.value != [] && w.lower(payer.value) != buyer
        then Rejected(401, "identity_mismatch")
        else
          var expiry := w.dateParse(OptionalProperty(body, EXPIRY).text);
          if expiry.None? || now >= expiry.value then Rejected(403, "mandate_expired")
          else if NotPositive(w, OptionalProperty(body, MAX_PER_CALL))
              || NotPositive(w, OptionalProperty(body, DAILY_CAP))
          then Rejected(403, "mandate_invalid_caps")
          else if Above(w, price, OptionalProperty(body, MAX_PER_CALL)) then Rejected(403, "mandate_scope_exceeded")
          else if OtherSeller(w, expected, OptionalProperty(body, SELLER)) then Rejected(403, "mandate_wrong_seller")
          else Accepted(m)
  }
}
