/**
 The buyer's loop, outcome by outcome: when a purchase ends in which outcome, what it leaves
 in the ledger, which offer it is about, and whether the loop goes on after it.
 */
module AgentLoop {
  import opened Options
  import opened Budget
  import opened Agent

  // ------------------------------------------------------------------- one purchase

  /** What the round would pay for if it gets that far. */
  function NextOffer(c: Settings, s: State, r: Round): Offer
    requires r.discovery.Offers? && Affordable(c, r.discovery.offers, r.accepted) != []
  {
    var affordable := Affordable(c, r.discovery.offers, r.accepted);
    affordable[s.cursor % |affordable|]
  }

  /** The kill switch is off, the mandate holds, and the card has something the mandate affords. */
  predicate Shops(c: Settings, r: Round) {
    && r.enabled && r.mandateValid && r.discovery.Offers? && r.discovery.offers != []
    && Affordable(c, r.discovery.offers, r.accepted) != []
  }

  /** With its price the spend of the last 24 hours would pass the cap. */
  predicate PassesCap(c: Settings, s: State, r: Round)
    requires Shops(c, r)
  {
    var price := NextOffer(c, s, r).price;
    price.Some? && Spent(Entries(s.ledger), r.checkAt - 86_400_000, r.checkAt) + price.value > c.cap
  }

  /** The exact condition of each of the twelve outcomes. */
  lemma OutcomeIff(c: Settings, s: State, r: Round)
    ensures var o := Purchase(c, s, r).1;
      var valid := r.enabled && r.mandateValid;
      var pays := Shops(c, r) && !PassesCap(c, s, r);
      && (o == Killed <==> !r.enabled)
      && (o == MandateInvalid <==> r.enabled && !r.mandateValid)
      && (o == CardRefused <==> valid && r.discovery.CardRejected?)
      && (o == DiscoveryError <==> valid && (r.discovery.DiscoveryFailed? || r.discovery == Offers([])))
      && (o == ScopeRejected <==> valid && r.discovery.Offers? && r.discovery.offers != [] && !Shops(c, r))
      && (o == CapReached <==> Shops(c, r) && PassesCap(c, s, r))
      && (o == NetworkError <==> pays && r.response == Lost)
      && (o == Success <==> pays && r.response == Status(200))
      && (o == MandateRefused <==> pays && r.response in {Status(401), Status(403)})
      && (o == RateLimited <==> pays && r.response == Status(429))
      && (o == Seller503 <==> pays && r.response == Status(503))
      && (o == UnexpectedStatus <==>
            pays && r.response.Status? && r.response.code !in {200, 401, 403, 429, 503})
  {
    hide Affordable, Spent, Entries;
  }

  /** The ledger line of each outcome, with the price of the offer where it is about one. */
  function LineOf(o: Outcome, price: Option<nat>): Option<(string, Option<nat>)> {
    match o
    case MandateInvalid => Some(("mandate_invalid", None))
    case CardRefused => Some(("card_rejected", None))
    case ScopeRejected => Some(("scope_rejected", None))
    case CapReached => Some(("cap_reached", price))
    case NetworkError => Some(("payment_unconfirmed", price))
    case MandateRefused => Some(("mandate_refused", None))
    case Success => Some(("success", price))
    case _ => None
  }

  function LinesOf(o: Outcome, price: Option<nat>, at: int): seq<Line> {
    match LineOf(o, price)
    case None => []
    case Some((result, p)) =>
      [Record(LedgerEntry(result, if p.Some? then Some(p.value as int) else None, Some(at)))]
  }

  /**
   What a purchase leaves: at most one ledger line, that of its outcome; a payment exactly if
   it got as far as paying, at the price of its offer; and a cursor that moves on exactly if
   an offer was picked.
   */
  lemma PurchaseLeaves(c: Settings, s: State, r: Round)
    ensures var (t, o) := Purchase(c, s, r);
      var price := if Shops(c, r) then NextOffer(c, s, r).price else None;
      var pays := Shops(c, r) && !PassesCap(c, s, r);
      && t.ledger == s.ledger + LinesOf(o, price, r.appendAt)
      && t.cursor == s.cursor + (if Shops(c, r) then 1 else 0)
      && t.errors == (if o == Success then 0 else s.errors) && t.clock == r.appendAt
      && t.paid == s.paid + (if pays then [Paid(r.checkAt, r.appendAt, price, o in {NetworkError, Success}, r.charge)]
                             else [])
  {
    hide Affordable, Spent, Entries;
  }

  // ------------------------------------------------------------------ what it picks

  lemma {:induction false} WithinIff(offers: seq<Offer>, limit: Option<nat>, o: Offer)
    ensures o in Within(offers, limit)
       <==> o in offers && (o.price.Some? && limit.Some? ==> o.price.value <= limit.value)
  {
    if offers != [] {
      var n := |offers| - 1;
      WithinIff(offers[..n], limit, o);
      assert offers == offers[..n] + [offers[n]];
    }
  }

  lemma {:induction false} BeyondIff(offers: seq<Offer>, limit: Option<nat>, o: Offer)
    ensures o in Beyond(offers, limit)
       <==> o in offers && o.price.Some? && limit.Some? && o.price.value > limit.value
  {
    if offers != [] {
      var n := |offers| - 1;
      BeyondIff(offers[..n], limit, o);
      assert offers == offers[..n] + [offers[n]];
    }
  }

  lemma {:induction false} CounteredIff(offers: seq<Offer>, accepted: seq<bool>, limit: Option<nat>, o: Offer)
    ensures o in Countered(offers, accepted, limit)
       <==> exists k :: 0 <= k < |offers| && k < |accepted| && accepted[k] && o == offers[k].(price := limit)
  {
    if offers != [] {
      var n := |offers| - 1;
      CounteredIff(offers[..n], accepted, limit, o);
      assert forall k | 0 <= k < n :: offers[k] == offers[..n][k];
    }
  }

  /**
   What the agent can pick from: the offers within its limit at their price, and those beyond
   it whose counter-offer was accepted, at the limit; so nothing above the limit.
   */
  lemma AffordableIff(c: Settings, offers: seq<Offer>, accepted: seq<bool>, o: Offer)
    ensures var beyond := Beyond(offers, c.maxPerCall);
      o in Affordable(c, offers, accepted) <==>
        || (o in offers && (o.price.Some? && c.maxPerCall.Some? ==> o.price.value <= c.maxPerCall.value))
        || exists k :: 0 <= k < |beyond| && k < |accepted| && accepted[k] && o == beyond[k].(price := c.maxPerCall)
    ensures o in Affordable(c, offers, accepted) && o.price.Some? && c.maxPerCall.Some? ==>
      o.price.value <= c.maxPerCall.value
  {
    hide Within, Beyond, Countered;
    var beyond := Beyond(offers, c.maxPerCall);
    WithinIff(offers, c.maxPerCall, o);
    CounteredIff(beyond, accepted, c.maxPerCall, o);
    var within, countered := Within(offers, c.maxPerCall), Countered(beyond, accepted, c.maxPerCall);
    assert o in within + countered <==> o in within || o in countered;
  }

  /** A round that shops picks the next offer in turn, so n rounds over n offers pick each once. */
  lemma PicksInTurn(c: Settings, s: State, r: Round, later: Round)
    requires Shops(c, r) && later.discovery == r.discovery && later.accepted == r.accepted
    ensures var affordable := Affordable(c, r.discovery.offers, r.accepted);
      var k := s.cursor % |affordable|;
      && NextOffer(c, s, r) == affordable[k]
      && NextOffer(c, Purchase(c, s, r).0, later) == affordable[if k + 1 == |affordable| then 0 else k + 1]
  {
    hide Affordable, Purchase;
    PurchaseLeaves(c, s, r);
    NextIndex(s.cursor, |Affordable(c, r.discovery.offers, r.accepted)|);
  }

  lemma NextIndex(i: nat, n: nat)
    requires n > 0
    ensures (i + 1) % n == if i % n + 1 == n then 0 else i % n + 1
  {
    var q, k := i / n, i % n;
    assert i == q * n + k;
    if k + 1 == n {
      assert i + 1 == (q + 1) * n + 0;
      Remainder(i + 1, q + 1, n, 0);
    } else {
      Remainder(i + 1, q, n, k + 1);
    }
  }

  lemma Remainder(x: nat, q: nat, n: nat, k: nat)
    requires k < n && x == q * n + k
    ensures x % n == k
  {
    var d := x / n - q;
    assert x == x / n * n + x % n;
    assert d * n == k - x % n;
    Multiple(d, n);
  }

  lemma Multiple(d: int, n: nat)
    ensures d > 0 ==> d * n >= n
    ensures d < 0 ==> d * n + n <= 0
  {
  }

  // ----------------------------------------------------------------------- the loop

  /** After a refusal, the kill switch or the cap, the agent is done: later rounds change nothing. */
  lemma LoopStops(c: Settings, s: State, rounds: seq<Round>)
    requires rounds != []
    requires Purchase(c, s, rounds[0]).1 in
      {Killed, CapReached, MandateInvalid, ScopeRejected, MandateRefused, CardRefused}
    ensures Loop(c, s, rounds) == Purchase(c, s, rounds[0]).0
  {
    hide Purchase;
  }

  /** After every other outcome it goes on, and counts the errors that are worth a retry. */
  lemma LoopGoesOn(c: Settings, s: State, rounds: seq<Round>)
    requires rounds != []
    requires Purchase(c, s, rounds[0]).1 in
      {DiscoveryError, NetworkError, Seller503, RateLimited, UnexpectedStatus, Success}
    ensures var (t, o) := Purchase(c, s, rounds[0]);
      var u := AfterRound(t, o, rounds[0]);
      && Loop(c, s, rounds) == Loop(c, u, rounds[1..])
      && u.paid == t.paid && u.cursor == t.cursor
      && (o in {UnexpectedStatus, Success} ==> u == t)
      && (o !in {UnexpectedStatus, Success} && t.errors + 1 < 5 ==> u == t.(errors := t.errors + 1))
      && (o !in {UnexpectedStatus, Success} && t.errors + 1 >= 5 ==>
            && u.errors == 0
            && u.ledger == t.ledger + [Record(LedgerEntry("loop_paused", None, Some(rounds[0].appendAt)))])
  {
    hide Purchase;
  }

  /** Every round fails in a way that is worth a retry. */
  predicate AllErrors(c: Settings, s: State, rounds: seq<Round>)
    decreases |rounds|
  {
    rounds != [] ==>
      var (t, o) := Purchase(c, s, rounds[0]);
      && o in {NetworkError, Seller503, RateLimited, DiscoveryError}
      && AllErrors(c, AfterRound(t, o, rounds[0]), rounds[1..])
  }

  function Pauses(ledger: seq<Line>): nat {
    if ledger == [] then 0
    else
      var last := ledger[|ledger| - 1];
      Pauses(ledger[..|ledger| - 1]) + if last.Record? && last.entry.result == "loop_paused" then 1 else 0
  }

  lemma PausesAppend(ledger: seq<Line>, line: Line)
    ensures Pauses(ledger + [line]) == Pauses(ledger)
      + if line.Record? && line.entry.result == "loop_paused" then 1 else 0
  {
    assert (ledger + [line])[..|ledger|] == ledger;
  }

  lemma ErrorRound(c: Settings, s: State, r: Round)
    requires s.errors < 5 && Purchase(c, s, r).1 in {NetworkError, Seller503, RateLimited, DiscoveryError}
    ensures var (t, o) := Purchase(c, s, r);
      var u := AfterRound(t, o, r);
      && u.errors == (if s.errors == 4 then 0 else s.errors + 1)
      && Pauses(u.ledger) == Pauses(s.ledger) + if s.errors == 4 then 1 else 0
  {
    hide Purchase, Pauses, NextOffer, PassesCap;
    var (t, o) := Purchase(c, s, r);
    PurchaseLeaves(c, s, r);
    var price := if Shops(c, r) then NextOffer(c, s, r).price else None;
    assert s.ledger + [] == s.ledger;
    if o == NetworkError { PausesAppend(s.ledger, LinesOf(o, price, r.appendAt)[0]); }
    PausesAppend(t.ledger, Record(LedgerEntry("loop_paused", None, Some(r.appendAt))));
  }

  /** Of errors in a row, every fifth pauses the loop. */
  lemma {:induction false} EveryFifthPauses(c: Settings, s: State, rounds: seq<Round>)
    requires s.errors < 5 && AllErrors(c, s, rounds)
    ensures var end := Loop(c, s, rounds);
      && end.errors == (s.errors + |rounds|) % 5
      && Pauses(end.ledger) == Pauses(s.ledger) + (s.errors + |rounds|) / 5
    decreases |rounds|
  {
    hide Purchase, AfterRound, Pauses;
    if rounds != [] {
      var (t, o) := Purchase(c, s, rounds[0]);
      ErrorRound(c, s, rounds[0]);
      EveryFifthPauses(c, AfterRound(t, o, rounds[0]), rounds[1..]);
    }
  }
}
