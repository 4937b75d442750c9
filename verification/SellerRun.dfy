/**
 The buyer's runs against this seller, which charges its list price: there the spending cap
 holds up to what is taken after error answers, with nothing assumed about amounts.
 */
module SellerRun {
  import opened Options
  import opened Budget
  import opened Agent
  import opened AgentRun
  import opened HonestSeller
  import opened Negotiation
  import opened Price

  /** The transfer is the amount that the seller's screen asks for the skill. */
  predicate IsListCharge(o: Offer, amount: nat, skill: Skill) {
    o.id == skill.id && skill.price.Some? && Atomic(skill.price.value) == Some(amount)
  }

  /**
   A round with this seller: its card or none, its answers to counter-offers, and for a
   payment nothing or the list price of what was chosen. The answer may be anything: a
   submitted transfer can execute after the payment middleware gave up and answered with an
   error.
   */
  ghost predicate WithSeller(env: Env, c: Settings, s: State, r: Round)
    requires Priced(env)
  {
    && (r.discovery.Offers? ==>
          && r.discovery.offers == CardOffers(env)
          && r.accepted == Answers(env, Beyond(CardOffers(env), c.maxPerCall), c.maxPerCall))
    && (Pays(c, s, r).Some? && r.charge.Some? ==>
          exists k :: 0 <= k < 2 && IsListCharge(Chosen(c, s, r).value, r.charge.value.amount, Card(env)[k]))
  }

  ghost predicate LoopWithSeller(env: Env, c: Settings, s: State, rounds: seq<Round>)
    requires Priced(env)
    decreases |rounds|
  {
    rounds != [] ==>
      var (t, o) := Purchase(c, s, rounds[0]);
      && WithSeller(env, c, s, rounds[0])
      && (!Stops(o) ==> LoopWithSeller(env, c, AfterRound(t, o, rounds[0]), rounds[1..]))
  }

  ghost predicate SessionsWithSeller(env: Env, c: Settings, s: State, sessions: seq<seq<Round>>)
    requires Priced(env)
    decreases |sessions|
  {
    sessions != [] ==>
      && LoopWithSeller(env, c, Restart(s), sessions[0])
      && SessionsWithSeller(env, c, Loop(c, Restart(s), sessions[0]), sessions[1..])
  }

  /** A list charge is exactly the price of the offer it pays for. */
  lemma ListChargeIsPrice(env: Env, c: Settings, o: Offer, amount: nat, k: nat)
    requires Priced(env) && o in Choice(env, c) && k < 2 && IsListCharge(o, amount, Card(env)[k])
    ensures o.price == Some(amount)
  {
    hide Choice, Atomic;
    ListPriceIsPaid(env, c, o);
    var j :| 0 <= j < 2 && IsListed(o, Card(env)[j]);
    DistinctSkills(env);
  }

  lemma DistinctSkills(env: Env)
    ensures Card(env)[0].id != Card(env)[1].id
  {
    assert Card(env)[0].id[6] == 'o' && Card(env)[1].id[6] == 'n';
  }

  /** So what this seller takes is the price, and is covered by a ledger line exactly if it is heard of. */
  lemma PurchaseFair(env: Env, c: Settings, s: State, r: Round)
    requires Priced(env) && WithSeller(env, c, s, r) && AllFair(s)
    ensures AllFair(Purchase(c, s, r).0)
    ensures Pays(c, s, r).Some? && r.charge.Some? ==>
      var paid := Purchase(c, s, r).0.paid;
      && Pays(c, s, r).value == Some(r.charge.value.amount) && |paid| == |s.paid| + 1
      && (r.charge.value.amount > 0 ==> (Covered(paid[|s.paid|]) <==> Heard(r)))
  {
    hide Pays, Covered, Priced, AllFair, Purchase, WithSeller, Heard, CardOffers, Answers, Card;
    if Pays(c, s, r).Some? && r.charge.Some? {
      TakesThePrice(env, c, s, r);
      CoveredIfHeard(c, s, r);
    }
    FairPurchase(c, s, r);
  }

  lemma CoveredIfHeard(c: Settings, s: State, r: Round)
    requires Pays(c, s, r).Some? && r.charge.Some? && Pays(c, s, r).value == Some(r.charge.value.amount)
    ensures var paid := Purchase(c, s, r).0.paid;
      |paid| == |s.paid| + 1 && (r.charge.value.amount > 0 ==> (Covered(paid[|s.paid|]) <==> Heard(r)))
  {
    hide Pays, Covered, Purchase, Heard, Spent, Entries;
    PaysMeans(c, s, r, Pays(c, s, r).value);
    PaymentRecords(s, Pays(c, s, r).value, r);
    if r.charge.value.amount > 0 { ChargeCountedIff(c, s, r, Some(r.charge.value.amount)); }
  }

  lemma TakesThePrice(env: Env, c: Settings, s: State, r: Round)
    requires Priced(env) && WithSeller(env, c, s, r) && Pays(c, s, r).Some? && r.charge.Some?
    ensures Pays(c, s, r).value == Some(r.charge.value.amount)
  {
    hide Affordable, RunningTotal, OverCap, CardOffers, Answers, Priced, Choice;
    var o := Chosen(c, s, r).value;
    ChosenIsChoice(env, c, s, r);
    var k :| 0 <= k < 2 && IsListCharge(o, r.charge.value.amount, Card(env)[k]);
    ListChargeIsPrice(env, c, o, r.charge.value.amount, k);
  }

  lemma ChosenIsChoice(env: Env, c: Settings, s: State, r: Round)
    requires Priced(env) && WithSeller(env, c, s, r) && Chosen(c, s, r).Some?
    ensures Chosen(c, s, r).value in Choice(env, c)
  {
    hide Affordable, CardOffers, Answers, Beyond;
  }

  lemma {:induction false} LoopFair(env: Env, c: Settings, s: State, rounds: seq<Round>)
    requires Priced(env) && LoopWithSeller(env, c, s, rounds) && AllFair(s)
    ensures AllFair(Loop(c, s, rounds))
    decreases |rounds|
  {
    hide Purchase, Priced, WithSeller;
    if rounds != [] {
      var (t, o) := Purchase(c, s, rounds[0]);
      PurchaseFair(env, c, s, rounds[0]);
      if !Stops(o) { LoopFair(env, c, AfterRound(t, o, rounds[0]), rounds[1..]); }
    }
  }

  lemma {:induction false} SessionsFair(env: Env, c: Settings, s: State, sessions: seq<seq<Round>>)
    requires Priced(env) && SessionsWithSeller(env, c, s, sessions) && AllFair(s)
    ensures AllFair(Sessions(c, s, sessions))
    decreases |sessions|
  {
    hide Loop, Priced, LoopWithSeller;
    if sessions != [] {
      LoopFair(env, c, Restart(s), sessions[0]);
      SessionsFair(env, c, Loop(c, Restart(s), sessions[0]), sessions[1..]);
    }
  }

  /**
   With this seller's card, its answers and its list prices, every run keeps what leaves the
   wallet in any window of 24 hours less the delay within the cap and what was taken in it
   after error answers; so within the cap, if every transfer was answered with 200 or not
   answered.
   */
  lemma CapHoldsAtListPrice(env: Env, c: Settings, s: State, sessions: seq<seq<Round>>, delay: nat, t: int)
    requires Priced(env) && GoodStart(c, s) && delay <= DAY_MS
    requires GoodSessions(c, s, sessions, delay) && SessionsWithSeller(env, c, s, sessions)
    ensures var paid, low := Sessions(c, s, sessions).paid, t - (DAY_MS - delay);
      && OnChain(paid, low, t) <= c.cap + Unrecorded(paid, low, t)
      && ((forall i | 0 <= i < |paid| :: paid[i].charge.Some? ==> paid[i].recorded) ==> OnChain(paid, low, t) <= c.cap)
  {
    hide Sessions, GoodSessions, SessionsWithSeller, OnChain, Fair, Priced, Sound, Unrecorded;
    assert s.paid == [];
    SessionsFair(env, c, s, sessions);
    CapHoldsIfFair(c, s, sessions, delay, t);
  }

  /** A price of what can be chosen from this seller's card is a list price. */
  lemma PriceIsListed(env: Env, c: Settings, o: Offer, price: nat)
    requires Priced(env) && o in Choice(env, c) && o.price == Some(price)
    ensures exists k :: 0 <= k < 2 && IsListCharge(o, price, Card(env)[k])
  {
    hide Choice, Atomic;
    ListPriceIsPaid(env, c, o);
    var k :| 0 <= k < 2 && IsListed(o, Card(env)[k]);
    assert IsListCharge(o, price, Card(env)[k]);
  }

  /**
   Error answers of this seller pass the cap as any seller's do: the rounds of
   `ErrorAnswersBreakCap`, with this seller's card and its answers, are rounds with this
   seller, which takes its list price in each.
   */
  lemma {:induction false} ErringWithSeller(env: Env, c: Settings, s: State, r: Round, n: nat)
    requires Priced(env) && Tempting(c, s, r) && r.discovery.offers == CardOffers(env)
    requires r.accepted == Answers(env, Beyond(CardOffers(env), c.maxPerCall), c.maxPerCall)
    ensures LoopWithSeller(env, c, s, Erring(c, s, r, n))
    decreases n
  {
    hide Tempting, Purchase, AfterRound, Affordable, CardOffers, Answers, Priced, Pays;
    if n > 0 {
      var q := Taking(c, s, r);
      var (t, o) := Purchase(c, s, q);
      ErringRound(c, s, r);
      TakingIsListCharge(env, c, s, r);
      ErringWithSeller(env, c, AfterRound(t, o, q), r, n - 1);
      assert Erring(c, s, r, n)[1..] == Erring(c, AfterRound(t, o, q), r, n - 1);
    }
  }

  lemma TakingIsListCharge(env: Env, c: Settings, s: State, r: Round)
    requires Priced(env) && Tempting(c, s, r) && r.discovery.offers == CardOffers(env)
    requires r.accepted == Answers(env, Beyond(CardOffers(env), c.maxPerCall), c.maxPerCall)
    ensures WithSeller(env, c, s, Taking(c, s, r))
  {
    hide Affordable, CardOffers, Answers, Priced, OverCap, RunningTotal, Choice;
    TemptedPays(c, s, r);
    var q := Taking(c, s, r);
    ChargeDoesNotDecide(c, s, r, q);
    var o := Chosen(c, s, q).value;
    assert o in Choice(env, c) by { ChosenIsChoice(env, c, s, r.(charge := None)); }
    PriceIsListed(env, c, o, q.charge.value.amount);
  }
}
