/**
 The buyer agent of buyer/agent.mjs: one purchase, the loop around it, and the ledger file.

 Amounts are whole micro-USDC; a price or limit that does not parse (NaN) is None. What the
 agent cannot control in one pass of its loop (the card, the clock, the seller's answer, and
 what happened on chain) is the pass's `Round`.
 */
module Agent {
  import opened Options
  import opened Budget

  datatype Settings = Settings(cap: nat, maxPerCall: Option<nat>)

  /** A line of the ledger file: one that parses as JSON, or one that is skipped. */
  datatype Line = Unreadable | Record(entry: LedgerEntry)

  datatype Offer = Offer(id: string, price: Option<nat>)

  datatype Discovery = Offers(offers: seq<Offer>) | CardRejected | DiscoveryFailed

  datatype Response = Lost | Status(code: int)

  /** A transfer out of the wallet. */
  datatype Charge = Charge(amount: nat, at: int)

  datatype Round = Round(
    enabled: bool,               // BUYER_ENABLED is not "false"
    mandateValid: bool,
    discovery: Discovery,
    accepted: seq<bool>,         // answers to the counter-offers, in order
    checkAt: int,                // Date.now() when the running total is read
    response: Response,
    charge: Option<Charge>,      // what this purchase took from the wallet, if anything
    appendAt: int                // when the ledger line is written
  )

  datatype Outcome =
    | Killed | MandateInvalid | CardRefused | DiscoveryError | ScopeRejected | CapReached
    | NetworkError | Seller503 | MandateRefused | RateLimited | UnexpectedStatus | Success

  /** A payment that was attempted: when it was checked, its price, and its transfer. */
  datatype Paid = Paid(checkAt: int, appendAt: int, price: Option<nat>, recorded: bool, charge: Option<Charge>)

  datatype State = State(ledger: seq<Line>, cursor: nat, errors: nat, clock: int, paid: seq<Paid>)

  // --------------------------------------------------------------- specification

  function Entries(ledger: seq<Line>): seq<LedgerEntry> {
    if ledger == [] then []
    else
      var rest := Entries(ledger[..|ledger| - 1]);
      var last := ledger[|ledger| - 1];
      if last.Unreadable? then rest else rest + [last.entry]
  }

  /** `price > limit`, which is false when either is NaN. */
  predicate Exceeds(price: Option<nat>, limit: Option<nat>) {
    price.Some? && limit.Some? && price.value > limit.value
  }

  function Within(offers: seq<Offer>, limit: Option<nat>): seq<Offer> {
    if offers == [] then []
    else
      var rest := Within(offers[..|offers| - 1], limit);
      var last := offers[|offers| - 1];
      if Exceeds(last.price, limit) then rest else rest + [last]
  }

  function Beyond(offers: seq<Offer>, limit: Option<nat>): seq<Offer> {
    if offers == [] then []
    else
      var rest := Beyond(offers[..|offers| - 1], limit);
      var last := offers[|offers| - 1];
      if Exceeds(last.price, limit) then rest + [last] else rest
  }

  /** Offers beyond the limit whose counter-offer, at the limit, was accepted. */
  function Countered(offers: seq<Offer>, accepted: seq<bool>, limit: Option<nat>): seq<Offer> {
    if offers == [] then []
    else
      var n := |offers| - 1;
      var rest := Countered(offers[..n], accepted, limit);
      if n < |accepted| && accepted[n] then rest + [offers[n].(price := limit)] else rest
  }

  function Affordable(c: Settings, offers: seq<Offer>, accepted: seq<bool>): seq<Offer> {
    Within(offers, c.maxPerCall) + Countered(Beyond(offers, c.maxPerCall), accepted, c.maxPerCall)
  }

  function RunningTotal(s: State, now: int): int { Spent(Entries(s.ledger), now - DAY_MS, now) }

  /** `runningTotal + price > DAILY_CAP`, false when the price is NaN. */
  predicate OverCap(c: Settings, total: int, price: Option<nat>) {
    price.Some? && total + price.value > c.cap
  }

  function Log(s: State, result: string, price: Option<nat>, r: Round): State {
    var amount: Option<int> := if price.Some? then Some(price.value) else None;
    s.(ledger := s.ledger + [Record(LedgerEntry(result, amount, Some(r.appendAt)))], clock := r.appendAt)
  }

  /** The offer this round settles on, when it gets that far. */
  function Chosen(c: Settings, s: State, r: Round): Option<Offer> {
    if !r.enabled || !r.mandateValid || !r.discovery.Offers? then None
    else
      var affordable := Affordable(c, r.discovery.offers, r.accepted);
      if affordable == [] then None else Some(affordable[s.cursor % |affordable|])
  }

  /** Does this round reach the payment, and with which price? */
  function Pays(c: Settings, s: State, r: Round): Option<Option<nat>> {
    match Chosen(c, s, r)
    case None => None
    case Some(offer) => if OverCap(c, RunningTotal(s, r.checkAt), offer.price) then None else Some(offer.price)
  }

  function AfterPayment(s: State, price: Option<nat>, r: Round): (State, Outcome) {
    var recorded := r.response == Lost || r.response == Status(200);
    var t := s.(cursor := s.cursor + 1, paid := s.paid + [Paid(r.checkAt, r.appendAt, price, recorded, r.charge)]);
    match r.response
    case Lost => (Log(t, UNCONFIRMED, price, r), NetworkError)
    case Status(code) =>
      if code == 503 then (t.(clock := r.appendAt), Seller503)
      else if code == 401 || code == 403 then (Log(t, "mandate_refused", None, r), MandateRefused)
      else if code == 429 then (t.(clock := r.appendAt), RateLimited)
      else if code != 200 then (t.(clock := r.appendAt), UnexpectedStatus)
      else (Log(t, SUCCESS, price, r).(errors := 0), Success)
  }

  /** One call of `onePurchase`. */
  function Purchase(c: Settings, s: State, r: Round): (State, Outcome) {
    if !r.enabled then (s.(clock := r.appendAt), Killed)
    else if !r.mandateValid then (Log(s, "mandate_invalid", None, r), MandateInvalid)
    else if r.discovery.CardRejected? then (Log(s, "card_rejected", None, r), CardRefused)
    else if r.discovery.DiscoveryFailed? || r.discovery.offers == [] then (s.(clock := r.appendAt), DiscoveryError)
    else
      match Chosen(c, s, r)
      case None => (Log(s, "scope_rejected", None, r), ScopeRejected)
      case Some(offer) =>
        if OverCap(c, RunningTotal(s, r.checkAt), offer.price) then
          (Log(s.(cursor := s.cursor + 1), "cap_reached", offer.price, r), CapReached)
        else AfterPayment(s, offer.price, r)
  }

  predicate Stops(o: Outcome) {
    o in {Killed, CapReached, MandateInvalid, ScopeRejected, MandateRefused, CardRefused}
  }

  predicate BacksOff(o: Outcome) { o in {NetworkError, Seller503, RateLimited, DiscoveryError} }

  const MAX_RETRIES: nat := 5

  /** The bookkeeping of the main loop after a pass. */
  function AfterRound(s: State, o: Outcome, r: Round): State {
    if !BacksOff(o) then s
    else if s.errors + 1 >= MAX_RETRIES then Log(s, "loop_paused", None, r).(errors := 0)
    else s.(errors := s.errors + 1)
  }

  /** The main loop over the rounds it is given, until an outcome that stops it. */
  function Loop(c: Settings, s: State, rounds: seq<Round>): State
    decreases |rounds|
  {
    if rounds == [] then s
    else
      var (t, o) := Purchase(c, s, rounds[0]);
      if Stops(o) then t else Loop(c, AfterRound(t, o, rounds[0]), rounds[1..])
  }

  /** Starting the process again keeps the ledger file and nothing else. */
  function Restart(s: State): State { s.(cursor := 0, errors := 0) }

  function Sessions(c: Settings, s: State, sessions: seq<seq<Round>>): State
    decreases |sessions|
  {
    if sessions == [] then s else Sessions(c, Loop(c, Restart(s), sessions[0]), sessions[1..])
  }

  // -------------------------------------------------------------- the agent itself

  class BuyerAgent {
    const settings: Settings
    var ledger: seq<Line>
    var resourceCursor: nat
    var consecutiveErrors: nat
    ghost var clock: int
    ghost var paid: seq<Paid>

    ghost function Contents(): State
      reads this
    {
      State(ledger, resourceCursor, consecutiveErrors, clock, paid)
    }

    constructor (settings: Settings, ledger: seq<Line>, ghost clock: int, ghost paid: seq<Paid>)
      ensures this.settings == settings && Contents() == State(ledger, 0, 0, clock, paid)
    {
      this.settings, this.ledger := settings, ledger;
      resourceCursor, consecutiveErrors := 0, 0;
      this.clock, this.paid := clock, paid;
    }

    method AppendLedger(result: string, price: Option<nat>, r: Round)
      modifies this`ledger, this`clock
      ensures Contents() == Log(old(Contents()), result, price, r)
    {
      var amount: Option<int> := if price.Some? then Some(price.value) else None;
      ledger := ledger + [Record(LedgerEntry(result, amount, Some(r.appendAt)))];
      clock := r.appendAt;
    }

    method ReadRunningTotal(now: int) returns (total: int)
      ensures total == RunningTotal(Contents(), now)
    {
      var entries: seq<LedgerEntry> := [];
      for i := 0 to |ledger|
        invariant entries == Entries(ledger[..i])
      {
        assert ledger[..i + 1][..i] == ledger[..i];
        if ledger[i].Record? {
          entries := entries + [ledger[i].entry];
        }
      }
      assert ledger[..|ledger|] == ledger;
      total := SpentInWindow(entries, now, DAY_MS);
    }

    /** The offers in scope, then the counter-offers that were accepted. */
    method FindAffordable(offers: seq<Offer>, accepted: seq<bool>) returns (affordable: seq<Offer>)
      ensures affordable == Affordable(settings, offers, accepted)
    {
      affordable := [];
      var tooExpensive: seq<Offer> := [];
      for i := 0 to |offers|
        invariant affordable == Within(offers[..i], settings.maxPerCall)
        invariant tooExpensive == Beyond(offers[..i], settings.maxPerCall)
      {
        assert offers[..i + 1][..i] == offers[..i];
        if Exceeds(offers[i].price, settings.maxPerCall) {
          tooExpensive := tooExpensive + [offers[i]];
        } else {
          affordable := affordable + [offers[i]];
        }
      }
      assert offers[..|offers|] == offers;
      ghost var inScope := affordable;
      for i := 0 to |tooExpensive|
        invariant affordable == inScope + Countered(tooExpensive[..i], accepted, settings.maxPerCall)
      {
        assert tooExpensive[..i + 1][..i] == tooExpensive[..i];
        if i < |accepted| && accepted[i] {
          affordable := affordable + [tooExpensive[i].(price := settings.maxPerCall)];
        }
      }
      assert tooExpensive[..|tooExpensive|] == tooExpensive;
    }

    method Settle(price: Option<nat>, r: Round) returns (outcome: Outcome)
      modifies this
      ensures (Contents(), outcome) == AfterPayment(old(Contents()), price, r)
    {
      resourceCursor := resourceCursor + 1;
      paid := paid + [Paid(r.checkAt, r.appendAt, price, r.response == Lost || r.response == Status(200), r.charge)];
      if r.response.Lost? {
        AppendLedger(UNCONFIRMED, price, r);
        return NetworkError;
      }
      clock := r.appendAt;
      if r.response.code == 503 {
        return Seller503;
      }
      if r.response.code == 401 || r.response.code == 403 {
        AppendLedger("mandate_refused", None, r);
        return MandateRefused;
      }
      if r.response.code == 429 {
        return RateLimited;
      }
      if r.response.code != 200 {
        return UnexpectedStatus;
      }
      AppendLedger(SUCCESS, price, r);
      consecutiveErrors := 0;
      return Success;
    }

    method OnePurchase(r: Round) returns (outcome: Outcome)
      modifies this
      ensures (Contents(), outcome) == Purchase(settings, old(Contents()), r)
    {
      if !r.enabled {
        clock := r.appendAt;
        return Killed;
      }
      if !r.mandateValid {
        AppendLedger("mandate_invalid", None, r);
        return MandateInvalid;
      }
      if r.discovery.CardRejected? {
        AppendLedger("card_rejected", None, r);
        return CardRefused;
      }
      if r.discovery.DiscoveryFailed? || r.discovery.offers == [] {
        clock := r.appendAt;
        return DiscoveryError;
      }
      var affordable := FindAffordable(r.discovery.offers, r.accepted);
      if |affordable| == 0 {
        AppendLedger("scope_rejected", None, r);
        return ScopeRejected;
      }
      var offer := affordable[resourceCursor % |affordable|];
      var runningTotal := ReadRunningTotal(r.checkAt);
      if OverCap(settings, runningTotal, offer.price) {
        resourceCursor := resourceCursor + 1;
        AppendLedger("cap_reached", offer.price, r);
        return CapReached;
      }
      outcome := Settle(offer.price, r);
    }

    /** The main loop. */
    method RunLoop(rounds: seq<Round>)
      modifies this
      ensures Contents() == Loop(settings, old(Contents()), rounds)
    {
      hide Purchase;
      var running := true;
      var i := 0;
      while running && i < |rounds|
        invariant 0 <= i <= |rounds|
        invariant running ==> Loop(settings, Contents(), rounds[i..]) == Loop(settings, old(Contents()), rounds)
        invariant !running ==> Contents() == Loop(settings, old(Contents()), rounds)
        decreases |rounds| - i
      {
        assert rounds[i..][0] == rounds[i] && rounds[i..][1..] == rounds[i + 1..];
        var result := OnePurchase(rounds[i]);
        if Stops(result) {
          running := false;
        } else if BacksOff(result) {
          consecutiveErrors := consecutiveErrors + 1;
          if consecutiveErrors >= MAX_RETRIES {
            AppendLedger("loop_paused", None, rounds[i]);
            consecutiveErrors := 0;
          }
        }
        i := i + 1;
      }
    }
  }
}
