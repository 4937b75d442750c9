/**
 One price variable, read in four places: the payment screen and the mandate check of
 src/paid-route.ts, the negotiation of src/negotiate.ts, and, by way of the agent card, the
 buyer of buyer/agent.mjs.

 Numbers are exact: a parsed price is a decimal fraction. A variable of None is not set.
 */
module Price {
  import opened Options
  import opened Texts

  // ----------------------------------------------------------------------- parsing

  /** `replace(/[^0-9.]/g, "")`. */
  function Clean(s: string): string {
    if s == "" then "" else (if IsDigit(s[0]) || s[0] == '.' then [s[0]] else "") + Clean(s[1..])
  }

  /** How many digits the text starts with. */
  function DigitsLen(t: string): (n: nat)
    ensures n <= |t| && AllDigits(t[..n])
  {
    if t != "" && IsDigit(t[0]) then
      var n := DigitsLen(t[1..]);
      assert t[..1 + n] == [t[0]] + t[1..][..n];
      1 + n
    else 0
  }

  predicate AllDigits(t: string) { forall k | 0 <= k < |t| :: IsDigit(t[k]) }

  function NatOf(t: string): nat
    requires AllDigits(t)
  {
    if t == "" then 0
    else
      var n := |t| - 1;
      NatOf(t[..n]) * 10 + (t[n] - '0') as nat
  }

  /** mantissa / 10^scale */
  datatype Decimal = Decimal(mantissa: nat, scale: nat)

  function Pow10(n: nat): (p: nat)
    ensures p > 0
  {
    if n == 0 then 1 else 10 * Pow10(n - 1)
  }

  function Value(d: Decimal): real { d.mantissa as real / Pow10(d.scale) as real }

  /** `parseFloat` of digits and points; None for NaN. */
  function ParseFloat(t: string): Option<Decimal> {
    var n := DigitsLen(t);
    if n < |t| && t[n] == '.' then
      var m := DigitsLen(t[n + 1..]);
      if n + m == 0 then None
      else
        assert AllDigits(t[..n] + t[n + 1..][..m]);
        Some(Decimal(NatOf(t[..n] + t[n + 1..][..m]), m))
    else if n == 0 then None
    else Some(Decimal(NatOf(t[..n]), 0))
  }

  /** What the four parsers do with a price text. */
  function Usdc(price: string): Option<Decimal> { ParseFloat(Clean(price)) }

  const MICRO: real := 1_000_000.0

  /** `priceToAtomic`: rounded to the next integer, halves upwards. */
  function Atomic(price: string): Option<int> {
    match Usdc(price)
    case None => None
    case Some(d) => Some((Value(d) * MICRO + 0.5).Floor)
  }

  /** `priceToUsdc` of the paid route; None when it throws, because the variable is not set. */
  function MandateUsdc(price: Option<string>): Option<Option<Decimal>> {
    if price.None? then None else Some(Usdc(price.value))
  }

  /** `priceToUsdc` of the negotiation, which makes a string of whatever it gets. */
  function NegotiationUsdc(price: Option<string>): Option<Decimal> {
    Usdc(if price.None? then "undefined" else price.value)
  }

  const DEFAULT_PRICE: string := "$0.001"

  /** The buyer's reading of the card, with a default for a price that is missing or empty. */
  function AgentUsdc(price: Option<string>): Option<Decimal> {
    Usdc(if price.None? || price.value == "" then DEFAULT_PRICE else price.value)
  }

  /** A price of None, or one with at most six fractional digits. */
  predicate SixDigits(d: Option<Decimal>) { d.Some? ==> d.value.scale <= 6 }

  function Micro(d: Decimal): nat
    requires d.scale <= 6
  {
    d.mantissa * Pow10(6 - d.scale)
  }

  // ------------------------------------------------------------ writing and reading

  function Digit(n: nat): char
    requires n < 10
  {
    '0' + n as char
  }

  /** The last k digits of a number. */
  function Padded(n: nat, k: nat): (t: string)
    ensures |t| == k && AllDigits(t)
  {
    if k == 0 then "" else Padded(n / 10, k - 1) + [Digit(n % 10)]
  }

  /** A number in decimal. */
  function Digits(n: nat): (t: string)
    ensures t != "" && AllDigits(t)
  {
    if n < 10 then [Digit(n)] else Digits(n / 10) + [Digit(n % 10)]
  }

  /** A price with k fractional digits. */
  function PriceText(whole: nat, part: nat, k: nat): string { "$" + (Digits(whole) + ("." + Padded(part, k))) }

  /** "$0.001000" for 1000. */
  function Dollars(micro: nat): string { PriceText(micro / 1_000_000, micro % 1_000_000, 6) }

  lemma {:induction false} NatOfDigits(n: nat)
    ensures NatOf(Digits(n)) == n
  {
    if n < 10 {
      assert [Digit(n)][..0] == "";
    } else {
      NatOfDigits(n / 10);
    }
  }

  lemma {:induction false} NatOfPadded(t: string, n: nat, k: nat)
    requires AllDigits(t) && n < Pow10(k)
    ensures AllDigits(t + Padded(n, k)) && NatOf(t + Padded(n, k)) == NatOf(t) * Pow10(k) + n
  {
    if k == 0 {
      assert t + "" == t;
    } else {
      NatOfPadded(t, n / 10, k - 1);
      var head := t + Padded(n / 10, k - 1);
      assert t + Padded(n, k) == head + [Digit(n % 10)];
      Scale(NatOf(t), n, Pow10(k - 1));
    }
  }

  lemma Scale(a: nat, n: nat, p: nat)
    ensures (a * p + n / 10) * 10 + n % 10 == a * (10 * p) + n
  {
  }

  lemma {:induction false} CleanDigits(t: string, r: string)
    requires AllDigits(t)
    ensures Clean(t + r) == t + Clean(r)
  {
    if t == "" {
      assert t + r == r;
    } else {
      assert AllDigits(t[1..]);
      CleanDigits(t[1..], r);
      assert (t + r)[1..] == t[1..] + r;
      assert t == [t[0]] + t[1..];
    }
  }

  lemma {:induction false} DigitsLenOf(t: string, r: string)
    requires AllDigits(t) && (r == "" || !IsDigit(r[0]))
    ensures DigitsLen(t + r) == |t|
  {
    if t == "" {
      assert t + r == r;
    } else {
      assert AllDigits(t[1..]);
      DigitsLenOf(t[1..], r);
      assert (t + r)[1..] == t[1..] + r;
    }
  }

  lemma ParsePoint(whole: string, part: string)
    requires AllDigits(whole) && AllDigits(part) && whole != ""
    ensures AllDigits(whole + part) && ParseFloat(whole + ("." + part)) == Some(Decimal(NatOf(whole + part), |part|))
  {
    var t := whole + ("." + part);
    DigitsLenOf(whole, "." + part);
    DigitsLenOf(part, "");
    assert part + "" == part;
    assert t[..|whole|] == whole && t[|whole| + 1..] == part && part[..|part|] == part;
  }

  lemma CleanPoint(r: string)
    ensures Clean("." + r) == "." + Clean(r) && Clean("$" + r) == Clean(r)
  {
    assert ("." + r)[1..] == r && ("$" + r)[1..] == r;
  }

  lemma TextIsRead(whole: nat, part: nat, k: nat)
    requires part < Pow10(k)
    ensures Usdc(PriceText(whole, part, k)) == Some(Decimal(whole * Pow10(k) + part, k))
  {
    hide NatOf, Clean, ParseFloat, Digits, Padded, Pow10;
    var w, p := Digits(whole), Padded(part, k);
    CleanPoint(w + ("." + p));
    CleanDigits(w, "." + p);
    CleanPoint(p);
    CleanDigits(p, "");
    CleanNone();
    assert p + "" == p;
    ParsePoint(w, p);
    NatOfDigits(whole);
    NatOfPadded(w, part, k);
  }

  /** A price written with six digits is read as the amount it was written for. */
  lemma PriceReadsBack(micro: nat)
    ensures var d := Usdc(Dollars(micro));
      d.Some? && d.value.scale == 6 && Micro(d.value) == micro
  {
    hide Usdc, PriceText;
    TextIsRead(micro / 1_000_000, micro % 1_000_000, 6);
  }

  lemma CleanNone()
    ensures Clean("") == ""
  {
  }

  // ----------------------------------------------------------------------- agreement

  lemma MicroIsExact(d: Decimal)
    requires d.scale <= 6
    ensures Micro(d) as real == Value(d) * MICRO
  {
    assert Pow10(0) == 1 && Pow10(1) == 10 && Pow10(2) == 100 && Pow10(3) == 1000;
    assert Pow10(4) == 10_000 && Pow10(5) == 100_000 && Pow10(6) == 1_000_000;
  }

  lemma RoundExact(x: real)
    ensures (x + 0.5).Floor as real == x <==> x.Floor as real == x
  {
    if (x + 0.5).Floor as real == x { FloorOf(x, (x + 0.5).Floor); }
    if x.Floor as real == x { FloorOf(x, x.Floor); }
  }

  lemma FloorOf(x: real, n: int)
    requires x == n as real
    ensures x.Floor == n && (x + 0.5).Floor == n
  {
  }

  /** Rounding to micro-USDC changes nothing exactly if the price is a whole number of them. */
  lemma AtomicIsExact(price: string)
    requires Usdc(price).Some?
    ensures var exact := Value(Usdc(price).value) * MICRO;
      Atomic(price).value as real == exact <==> exact.Floor as real == exact
  {
    RoundExact(Value(Usdc(price).value) * MICRO);
  }

  /** Mandate check, negotiation and buyer read the same, exactly if the variable is set and not empty. */
  lemma ReadersAgreeIff(price: Option<string>)
    ensures MandateUsdc(price) == Some(NegotiationUsdc(price)) && NegotiationUsdc(price) == AgentUsdc(price)
       <==> price.Some? && price.value != ""
  {
    hide Usdc;
    NothingToRead();
    DefaultIsRead();
  }

  lemma NothingToRead()
    ensures Usdc("") == None && Usdc("undefined") == None
  {
    hide Clean;
    CleanNone();
    CleanLetters("undefined");
  }

  lemma {:induction false} CleanLetters(s: string)
    requires forall k | 0 <= k < |s| :: !IsDigit(s[k]) && s[k] != '.'
    ensures Clean(s) == ""
  {
    if s != "" { CleanLetters(s[1..]); }
  }

  lemma DefaultText()
    ensures PriceText(0, 1, 3) == DEFAULT_PRICE
  {
    hide Padded, Digits;
    DefaultDigits();
    assert "$" + ("0" + ("." + "001")) == DEFAULT_PRICE;
  }

  lemma DefaultDigits()
    ensures Padded(1, 3) == "001" && Digits(0) == "0"
  {
    assert Padded(0, 1) == "0" && Padded(0, 2) == "00";
  }

  lemma DefaultIsRead()
    ensures Usdc(DEFAULT_PRICE) == Some(Decimal(1, 3))
  {
    hide Usdc, PriceText;
    DefaultText();
    assert Pow10(3) == 1000;
    TextIsRead(0, 1, 3);
  }

  /** A whole price, written without a point, and a text without a digit. */
  lemma WholeIsRead(n: nat, s: string)
    requires forall k | 0 <= k < |s| :: !IsDigit(s[k])
    ensures Usdc("$" + Digits(n)) == Some(Decimal(n, 0)) && Atomic("$" + Digits(n)) == Some(n * 1_000_000)
    ensures Usdc(s) == None
  {
    hide Digits, ParseFloat, NatOf;
    var t := Digits(n);
    CleanPoint(t);
    CleanDigits(t, "");
    assert t + "" == t && Clean("") == "";
    WholeParses(t);
    NatOfDigits(n);
    assert (n as real * MICRO + 0.5).Floor == n * 1_000_000;
    assert Pow10(0) == 1;
    OnlyPoints(s);
    PointsAreNone(Clean(s));
  }

  lemma WholeParses(t: string)
    requires t != "" && AllDigits(t)
    ensures ParseFloat(t) == Some(Decimal(NatOf(t), 0))
  {
    hide NatOf;
    DigitsLenOf(t, "");
    assert t + "" == t && t[..|t|] == t;
  }

  lemma {:induction false} OnlyPoints(s: string)
    requires forall k | 0 <= k < |s| :: !IsDigit(s[k])
    ensures forall k | 0 <= k < |Clean(s)| :: Clean(s)[k] == '.'
  {
    if s != "" { OnlyPoints(s[1..]); }
  }

  lemma PointsAreNone(t: string)
    requires forall k | 0 <= k < |t| :: t[k] == '.'
    ensures ParseFloat(t) == None
  {
    if t != "" && |t| > 1 { assert t[1..][0] == '.'; }
  }

  /** With at most six fractional digits, the screen's rounding gives the amount all others read. */
  lemma OneAmount(price: string)
    requires price != "" && Usdc(price).Some? && SixDigits(Usdc(price))
    ensures var d := Usdc(price).value;
      && Atomic(price) == Some(Micro(d)) && Micro(d) as real == Value(d) * MICRO
      && MandateUsdc(Some(price)) == Some(Some(d)) && NegotiationUsdc(Some(price)) == AgentUsdc(Some(price)) == Some(d)
  {
    hide Usdc, Value, Micro;
    var d := Usdc(price).value;
    MicroIsExact(d);
    FloorOf(Value(d) * MICRO, Micro(d));
  }

  /** The amount check of `screenPayment`; a value of Some(None) is not a number. */
  predicate AmountInvalid(value: Option<Option<int>>, price: string) {
    value.Some? && value.value.Some? && Atomic(price).Some? && value.value.value < Atomic(price).value
  }

  /** With six digits, an authorization passes the screen exactly from the list price upwards. */
  lemma ScreenAsksListPrice(value: int, price: string)
    requires price != "" && Usdc(price).Some? && SixDigits(Usdc(price))
    ensures AmountInvalid(Some(Some(value)), price) <==> value as real / MICRO < Value(Usdc(price).value)
  {
    hide Usdc, Value, Micro;
    OneAmount(price);
  }

  /** "$0.0000005", half a micro-USDC, is screened as a whole one. */
  lemma HalfRoundsUp()
    ensures var price := PriceText(0, 5, 7);
      Atomic(price) == Some(1) && Value(Usdc(price).value) * MICRO == 0.5
  {
    hide Usdc, PriceText;
    assert Pow10(7) == 10_000_000;
    TextIsRead(0, 5, 7);
  }
}
