/**
 The negotiation of src/negotiate.ts between the seller's card (src/agent-card.ts) and the
 buyer's agent (buyer/agent.mjs): a counter-offer never succeeds, so everything is bought at
 the list price.
 */
module Negotiation {
  import opened Options
  import opened Price
  import opened Texts
  import Agent

  /** The two price variables. */
  datatype Env = Env(perReading: Option<string>, perInference: Option<string>)

  datatype Quote =
    | UnknownResource
    | NoOffer(counter: Option<Decimal>)
    | OfferInvalid
    | Accepted
    | Declined(counter: Option<Decimal>)

  /**
   The price variable of a resource. The table is a plain object, so two names that every
   object answers to are found as well; no variable is set for them.
   */
  function PriceOf(env: Env, resource: string): Option<Option<string>> {
    if resource == "readings" then Some(env.perReading)
    else if resource == "inference" then Some(env.perInference)
    else if resource == "constructor" || resource == "__proto__" then Some(None)
    else None
  }

  /** `negotiateHandler`; an offer of Some(None) is not a finite number. */
  function Negotiate(env: Env, resource: Option<string>, offer: Option<Option<real>>): Quote {
    match PriceOf(env, Lower(if resource.Some? then resource.value else "readings"))
    case None => UnknownResource
    case Some(price) =>
      var list := NegotiationUsdc(price);
      if offer.None? then NoOffer(list)
      else if offer.value.None? || offer.value.value < 0.0 then OfferInvalid
      else if list.Some? && offer.value.value >= Value(list.value) then Accepted
      else Declined(list)
  }

  function ReplaceFirst(s: string, what: string, other: string): string {
    if |what| <= |s| && s[..|what|] == what then other + s[|what|..]
    else if s == "" then s
    else [s[0]] + ReplaceFirst(s[1..], what, other)
  }

  const SELL: string := "sell-"

  /** `id.replace(/^sell-/, "").replace("iot-reading", "readings")`. */
  function NegotiationName(id: string): string {
    ReplaceFirst(if |id| >= 5 && id[..5] == SELL then id[5..] else id, "iot-reading", "readings")
  }

  datatype Skill = Skill(id: string, price: Option<string>)

  /** The priced skills of the agent card. */
  function Card(env: Env): seq<Skill> {
    [Skill(SELL + "iot-reading", env.perReading), Skill(SELL + "inference", env.perInference)]
  }

  lemma LowerNames()
    ensures Lower("readings") == "readings" && Lower("inference") == "inference"
  {
  }

  lemma Named(name: string)
    ensures NegotiationName(SELL + name) == ReplaceFirst(name, "iot-reading", "readings")
  {
    hide ReplaceFirst;
    assert (SELL + name)[..5] == SELL && (SELL + name)[5..] == name;
  }

  lemma ReplaceWhole(s: string, other: string)
    ensures ReplaceFirst(s, s, other) == other
  {
    assert s[..|s|] == s && s[|s|..] == "" && other + "" == other;
  }

  /** The buyer asks about a skill under the name whose price the card shows. */
  lemma NamesMatch(env: Env, k: nat)
    requires k < 2
    ensures PriceOf(env, Lower(NegotiationName(Card(env)[k].id))) == Some(Card(env)[k].price)
  {
    hide Lower, NegotiationName, ReplaceFirst;
    LowerNames();
    Named("iot-reading");
    ReplaceWhole("iot-reading", "readings");
    Named("inference");
    Absent("inference");
  }

  lemma {:induction false} Absent(s: string)
    requires |s| < 11
    ensures ReplaceFirst(s, "iot-reading", "readings") == s
    decreases |s|
  {
    if s != "" {
      Absent(s[1..]);
      assert s == [s[0]] + s[1..];
    }
  }

  /**
   Whatever the prices are, and whichever limit the buyer has: a counter-offer at the limit,
   made because the card's price is above it, is not accepted.
   */
  lemma CounterOfferFails(env: Env, k: nat, limit: real)
    requires k < 2
    requires var d := AgentUsdc(Card(env)[k].price); d.Some? && Value(d.value) > limit
    ensures Negotiate(env, Some(NegotiationName(Card(env)[k].id)), Some(Some(limit))) != Accepted
  {
    hide Usdc, Value, NegotiationName;
    NamesMatch(env, k);
    NothingToRead();
  }

  /** The variable of a skill is set and a number; then this is the list price. */
  predicate ListsAt(price: Option<string>, list: Decimal) {
    price.Some? && Usdc(price.value) == Some(list)
  }

  /**
   The seller's answers about a skill on its card that has a list price: an offer is accepted
   exactly from the list price upwards; a lower one is declined and countered with the list
   price, which is also the answer to no offer; a negative one, or no number, is invalid.
   */
  lemma NegotiatesAtList(env: Env, k: nat, list: Decimal, offer: real)
    requires k < 2 && ListsAt(Card(env)[k].price, list)
    ensures var name := Some(NegotiationName(Card(env)[k].id));
      && (Negotiate(env, name, Some(Some(offer))) == Accepted <==> offer >= Value(list))
      && (Negotiate(env, name, Some(Some(offer))) == Declined(Some(list)) <==> 0.0 <= offer < Value(list))
      && (Negotiate(env, name, Some(Some(offer))) == OfferInvalid <==> offer < 0.0)
      && Negotiate(env, name, Some(None)) == OfferInvalid
      && Negotiate(env, name, None) == NoOffer(Some(list))
  {
    hide Usdc, Value, NegotiationName;
    NamesMatch(env, k);
    assert Value(list) >= 0.0 by { NotNegative(list); }
  }

  lemma NotNegative(d: Decimal)
    ensures Value(d) >= 0.0
  {
  }

  /** A resource that is not sold is unknown, and no resource at all means the readings. */
  lemma UnknownIff(env: Env, resource: string, offer: Option<Option<real>>)
    ensures Negotiate(env, Some(resource), offer) == UnknownResource
       <==> Lower(resource) !in {"readings", "inference", "constructor", "__proto__"}
    ensures Negotiate(env, None, offer) == Negotiate(env, Some("readings"), offer)
    ensures forall list: Decimal | ListsAt(env.perReading, list) ::
      Negotiate(env, Some("Readings"), None) == NoOffer(Some(list))
    ensures forall list: Decimal | ListsAt(env.perInference, list) ::
      Negotiate(env, Some("inference"), None) == NoOffer(Some(list))
  {
    hide Usdc;
    LowerNames();
    assert Lower("Readings") == "readings";
  }

  // -------------------------------------------------------------- what the buyer pays

  /** The buyer's offers, in micro-USDC. */
  function CardOffers(env: Env): seq<Agent.Offer>
    requires forall k | 0 <= k < 2 :: SixDigits(AgentUsdc(Card(env)[k].price))
  {
    seq(2, k requires 0 <= k < 2 => OfferOf(Card(env)[k]))
  }

  function OfferOf(skill: Skill): Agent.Offer
    requires SixDigits(AgentUsdc(skill.price))
  {
    var d := AgentUsdc(skill.price);
    Agent.Offer(skill.id, if d.Some? then Some(Micro(d.value)) else None)
  }

  /** A counter-offer at the limit, which is in micro-USDC; a limit of None is NaN. */
  function Counter(limit: Option<nat>): Option<real> {
    if limit.Some? then Some(limit.value as real / MICRO) else None
  }

  /** The seller's answers to counter-offers at the limit. */
  function Answers(env: Env, beyond: seq<Agent.Offer>, limit: Option<nat>): seq<bool> {
    seq(|beyond|, k requires 0 <= k < |beyond| =>
      Negotiate(env, Some(NegotiationName(beyond[k].id)), Some(Counter(limit))) == Accepted)
  }

  lemma {:induction false} NoneCountered(offers: seq<Agent.Offer>, accepted: seq<bool>, limit: Option<nat>)
    requires forall k | 0 <= k < |accepted| :: !accepted[k]
    ensures Agent.Countered(offers, accepted, limit) == []
  {
    if offers != [] { NoneCountered(offers[..|offers| - 1], accepted, limit); }
  }

  lemma {:induction false} BeyondAreOffers(offers: seq<Agent.Offer>, limit: Option<nat>)
    ensures forall o | o in Agent.Beyond(offers, limit) :: o in offers && Agent.Exceeds(o.price, limit)
  {
    if offers != [] { BeyondAreOffers(offers[..|offers| - 1], limit); }
  }

  lemma {:induction false} WithinAreOffers(offers: seq<Agent.Offer>, limit: Option<nat>)
    ensures forall o | o in Agent.Within(offers, limit) :: o in offers && !Agent.Exceeds(o.price, limit)
  {
    if offers != [] { WithinAreOffers(offers[..|offers| - 1], limit); }
  }

  lemma AboveLimit(d: Decimal, limit: nat)
    requires d.scale <= 6 && Micro(d) > limit
    ensures Value(d) > limit as real / MICRO
  {
    hide Value, Micro;
    MicroIsExact(d);
  }

  lemma AnswerIsNo(env: Env, o: Agent.Offer, limit: nat)
    requires forall k | 0 <= k < 2 :: SixDigits(AgentUsdc(Card(env)[k].price))
    requires o in CardOffers(env) && Agent.Exceeds(o.price, Some(limit))
    ensures Negotiate(env, Some(NegotiationName(o.id)), Some(Some(limit as real / MICRO))) != Accepted
  {
    hide Negotiate, NegotiationName, Value, Micro, AgentUsdc;
    var k :| 0 <= k < 2 && CardOffers(env)[k] == o;
    assert SixDigits(AgentUsdc(Card(env)[k].price));
    AboveLimit(AgentUsdc(Card(env)[k].price).value, limit);
    CounterOfferFails(env, k, limit as real / MICRO);
  }

  /** Both variables are set, and at most six digits fine. */
  predicate Priced(env: Env) {
    forall k | 0 <= k < 2 ::
      Card(env)[k].price.Some? && Card(env)[k].price.value != "" && SixDigits(AgentUsdc(Card(env)[k].price))
  }

  /** What the buyer can choose from, with this seller's card and this seller's answers. */
  function Choice(env: Env, c: Agent.Settings): seq<Agent.Offer>
    requires Priced(env)
  {
    Agent.Affordable(c, CardOffers(env), Answers(env, Agent.Beyond(CardOffers(env), c.maxPerCall), c.maxPerCall))
  }

  /** The offer is this skill, at the amount the seller's screen asks for. */
  predicate IsListed(o: Agent.Offer, skill: Skill)
    requires skill.price.Some?
  {
    && o.id == skill.id
    && match Atomic(skill.price.value)
       case None => o.price.None?
       case Some(amount) => o.price.Some? && o.price.value == amount
  }

  /**
   What the agent can choose from are the card's offers within its limit, each at the list
   price: so the price it checks against the cap is the price the seller's screen asks for.
   */
  lemma ListPriceIsPaid(env: Env, c: Agent.Settings, o: Agent.Offer)
    requires Priced(env) && o in Choice(env, c)
    ensures !Agent.Exceeds(o.price, c.maxPerCall)
    ensures exists k :: 0 <= k < 2 && IsListed(o, Card(env)[k])
  {
    hide Negotiate, NegotiationName, Value, Micro, Usdc;
    var offers := CardOffers(env);
    var beyond := Agent.Beyond(offers, c.maxPerCall);
    var answers := Answers(env, beyond, c.maxPerCall);
    BeyondAreOffers(offers, c.maxPerCall);
    forall k | 0 <= k < |answers| ensures !answers[k] {
      assert beyond[k] in beyond;
      AnswerIsNo(env, beyond[k], c.maxPerCall.value);
    }
    NoneCountered(beyond, answers, c.maxPerCall);
    assert o in Agent.Within(offers, c.maxPerCall);
    WithinAreOffers(offers, c.maxPerCall);
    var k :| 0 <= k < 2 && offers[k] == o;
    OfferIsListed(Card(env)[k]);
    assert IsListed(o, Card(env)[k]);
  }

  lemma OfferIsListed(skill: Skill)
    requires skill.price.Some? && skill.price.value != "" && SixDigits(AgentUsdc(skill.price))
    ensures IsListed(OfferOf(skill), skill)
  {
    hide Usdc, Value, Micro;
    if Usdc(skill.price.value).Some? { OneAmount(skill.price.value); }
  }
}
