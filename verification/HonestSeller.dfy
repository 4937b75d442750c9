/**
 The buyer's runs against any seller that takes no more than its price. What can leave the
 wallet beyond the spending cap is then exactly what is taken after an error answer, for
 which the agent writes no ledger line; and that has no bound.
 */
module HonestSeller {
  import opened Options
  import opened Budget
  import opened Agent
  import opened AgentRun

  /** The price parsed, and no more than it was taken. */
  predicate Fair(p: Paid) { p.charge.Some? ==> p.price.Some? && p.charge.value.amount <= p.price.value }

  predicate AllFair(s: State) { forall i | 0 <= i < |s.paid| :: Fair(s.paid[i]) }

  /** What left the wallet inside (low, high] by payments without a ledger line. */
  function Unrecorded(paid: seq<Paid>, low: int, high: int): nat {
    if paid == [] then 0
    else
      var last := paid[|paid| - 1];
      Unrecorded(paid[..|paid| - 1], low, high)
      + if !last.recorded && last.charge.Some? && low < last.charge.value.at <= high then last.charge.value.amount
        else 0
  }

  lemma {:induction false} FairExcess(paid: seq<Paid>, low: int, high: int)
    requires forall i | 0 <= i < |paid| :: Fair(paid[i])
    ensures ExcessIn(paid, low, high) == Unrecorded(paid, low, high)
  {
    if paid != [] {
      FairExcess(paid[..|paid| - 1], low, high);
      assert Fair(paid[|paid| - 1]);
    }
  }

  lemma {:induction false} RecordedLeavesNone(paid: seq<Paid>, low: int, high: int)
    requires forall i | 0 <= i < |paid| :: paid[i].charge.Some? ==> paid[i].recorded
    ensures Unrecorded(paid, low, high) == 0
  {
    if paid != [] { RecordedLeavesNone(paid[..|paid| - 1], low, high); }
  }

  /** A purchase at a price that parsed, from a seller that takes at most that. */
  lemma FairPurchase(c: Settings, s: State, r: Round)
    requires AllFair(s)
    requires Pays(c, s, r).Some? && r.charge.Some? ==> Pays(c, s, r).value.Some? && HonestCharge(Pays(c, s, r).value, r)
    ensures AllFair(Purchase(c, s, r).0)
  {
    hide Pays, Purchase, AfterPayment;
    if Pays(c, s, r).Some? {
      PaysMeans(c, s, r, Pays(c, s, r).value);
      PaymentRecords(s, Pays(c, s, r).value, r);
    } else {
      NoPayment(c, s, r);
    }
  }

  lemma NoPayment(c: Settings, s: State, r: Round)
    requires Pays(c, s, r).None?
    ensures Purchase(c, s, r).0.paid == s.paid
  {
    hide Affordable, RunningTotal;
  }

  /**
   The cap against every seller whose prices parse and that takes at most its price: in every
   run, what leaves the wallet in any window of 24 hours less the delay is at most the cap
   and what was taken in it after error answers. So it is at most the cap, if nothing is
   taken after an error.
   */
  lemma CapHoldsIfFair(c: Settings, s: State, sessions: seq<seq<Round>>, delay: nat, t: int)
    requires GoodStart(c, s) && delay <= DAY_MS && GoodSessions(c, s, sessions, delay)
    requires AllFair(Sessions(c, s, sessions))
    ensures var paid, low := Sessions(c, s, sessions).paid, t - (DAY_MS - delay);
      && OnChain(paid, low, t) <= c.cap + Unrecorded(paid, low, t)
      && ((forall i | 0 <= i < |paid| :: paid[i].charge.Some? ==> paid[i].recorded) ==> OnChain(paid, low, t) <= c.cap)
  {
    hide Sessions, GoodSessions, Sound, Fair, OnChain, ExcessIn, Unrecorded;
    var paid, low := Sessions(c, s, sessions).paid, t - (DAY_MS - delay);
    CapHolds(c, s, sessions, delay, t);
    FairExcess(paid, low, t);
    if forall i | 0 <= i < |paid| :: paid[i].charge.Some? ==> paid[i].recorded { RecordedLeavesNone(paid, low, t); }
  }

  // --------------------------------------------------------------- after error answers

  /** A round that is answered with an error that does not stop the agent, whatever it buys. */
  predicate Tempting(c: Settings, s: State, r: Round) {
    && r.enabled && r.mandateValid && r.discovery.Offers? && s.clock <= r.checkAt == r.appendAt
    && r.response.Status? && r.response.code !in {200, 401, 403}
    && Affordable(c, r.discovery.offers, r.accepted) != []
    && (forall o | o in Affordable(c, r.discovery.offers, r.accepted) ::
          o.price.Some? && o.price.value > 0 && RunningTotal(s, r.checkAt) + o.price.value <= c.cap)
  }

  /** The price is taken all the same. */
  function Taking(c: Settings, s: State, r: Round): Round {
    match Pays(c, s, r)
    case Some(Some(price)) => r.(charge := Some(Charge(price, r.checkAt)))
    case _ => r.(charge := None)
  }

  function Erring(c: Settings, s: State, r: Round, n: nat): seq<Round>
    decreases n
  {
    if n == 0 then []
    else
      var q := Taking(c, s, r);
      var (t, o) := Purchase(c, s, q);
      [q] + Erring(c, AfterRound(t, o, q), r, n - 1)
  }

  lemma TemptedPays(c: Settings, s: State, r: Round)
    requires Tempting(c, s, r)
    ensures Pays(c, s, r).Some? && Pays(c, s, r).value.Some? && Pays(c, s, r).value.value > 0
  {
    hide Affordable, RunningTotal;
    var affordable := Affordable(c, r.discovery.offers, r.accepted);
    assert affordable[s.cursor % |affordable|] in affordable;
  }

  /** One such round: the price is gone, the ledger counts what it counted, and the agent goes on. */
  lemma ErringRound(c: Settings, s: State, r: Round)
    requires Tempting(c, s, r)
    ensures var q := Taking(c, s, r);
      var (t, o) := Purchase(c, s, q);
      var u := AfterRound(t, o, q);
      && Plausible(s, q, 0) && !Stops(o) && Tempting(c, u, r)
      && (forall low, high :: Spent(Entries(u.ledger), low, high) == Spent(Entries(s.ledger), low, high))
      && |u.paid| == |s.paid| + 1 && u.paid[..|s.paid|] == s.paid
      && var p := u.paid[|s.paid|];
        Fair(p) && !p.recorded && p.charge.Some? && p.charge.value.amount > 0 && p.charge.value.at == r.checkAt
  {
    hide Affordable, Spent, Entries, Pays, Purchase, IsSpend;
    TemptedPays(c, s, r);
    var price := Pays(c, s, r).value;
    var q := Taking(c, s, r);
    ChargeDoesNotDecide(c, s, r, q);
    PaysMeans(c, s, q, price);
    PaymentCounts(s, price, q);
    PaymentRecords(s, price, q);
    var (t, o) := Purchase(c, s, q);
    PausedCounts(t, q);
  }

  /** Pausing the loop changes no total. */
  lemma PausedCounts(s: State, r: Round)
    ensures forall low, high ::
      Spent(Entries(Log(s, "loop_paused", None, r).ledger), low, high) == Spent(Entries(s.ledger), low, high)
  {
    hide Spent, Entries, IsSpend;
    SpendResults();
    forall low, high
      ensures Spent(Entries(Log(s, "loop_paused", None, r).ledger), low, high) == Spent(Entries(s.ledger), low, high)
    {
      LineCounts(s.ledger, LedgerEntry("loop_paused", None, Some(r.appendAt)), low, high);
    }
  }

  /**
   The input: transfers that execute although the seller answered with an error. In every
   state in which the agent can pay for what it is offered, n such rounds keep the run
   plausible and the seller fair, take n prices, and leave every total of the ledger as it
   was. So enough of them pass any cap.
   */
  lemma {:induction false} ErrorAnswersBreakCap(c: Settings, s: State, r: Round, n: nat)
    requires Tempting(c, s, r)
    ensures var end, low, high := Loop(c, s, Erring(c, s, r, n)), r.checkAt - DAY_MS, r.checkAt;
      && GoodLoop(c, s, Erring(c, s, r, n), 0) && (AllFair(s) ==> AllFair(end))
      && OnChain(end.paid, low, high) >= OnChain(s.paid, low, high) + n
      && (n > c.cap ==> OnChain(end.paid, low, high) > c.cap)
      && forall from, to :: Spent(Entries(end.ledger), from, to) == Spent(Entries(s.ledger), from, to)
    decreases n
  {
    hide Tempting, Spent, Entries, Purchase, AfterRound, Taking, Plausible, Fair;
    if n > 0 {
      var q := Taking(c, s, r);
      var (t, o) := Purchase(c, s, q);
      var u := AfterRound(t, o, q);
      ErringRound(c, s, r);
      ErrorAnswersBreakCap(c, u, r, n - 1);
      var rounds := Erring(c, s, r, n);
      assert rounds[0] == q && rounds[1..] == Erring(c, u, r, n - 1);
      assert OnChain(u.paid, r.checkAt - DAY_MS, r.checkAt) >= OnChain(s.paid, r.checkAt - DAY_MS, r.checkAt) + 1;
      if AllFair(s) {
        forall i | 0 <= i < |u.paid| ensures Fair(u.paid[i]) {
          if i < |s.paid| { assert u.paid[..|s.paid|][i] == s.paid[i]; }
        }
      }
    }
  }
}
