/**
 The spending cap over whole runs of the buyer agent: any number of rounds and restarts,
 with refusals, lost responses, transfers that settle late, and any behaviour of the seller.
 What a seller takes beyond the agent's own ledger line is named (`Excess`), and the cap
 holds up to it.
 */
module AgentRun {
  import opened Options
  import opened Budget
  import opened Agent

  // ------------------------------------------------------------------- assumptions

  /**
   The clock does not run backwards, and a transfer executes after its check and at most
   `delay` after the payment was written down. Nothing is assumed of its amount, or of the
   seller's answer.
   */
  ghost predicate Plausible(s: State, r: Round, delay: nat) {
    && s.clock <= r.checkAt <= r.appendAt
    && (r.charge.Some? ==> r.checkAt <= r.charge.value.at <= r.appendAt + delay)
  }

  ghost predicate GoodLoop(c: Settings, s: State, rounds: seq<Round>, delay: nat)
    decreases |rounds|
  {
    rounds != [] ==>
      var (t, o) := Purchase(c, s, rounds[0]);
      && Plausible(s, rounds[0], delay)
      && (!Stops(o) ==> GoodLoop(c, AfterRound(t, o, rounds[0]), rounds[1..], delay))
  }

  ghost predicate GoodSessions(c: Settings, s: State, sessions: seq<seq<Round>>, delay: nat)
    decreases |sessions|
  {
    sessions != [] ==>
      && GoodLoop(c, Restart(s), sessions[0], delay)
      && GoodSessions(c, Loop(c, Restart(s), sessions[0]), sessions[1..], delay)
  }

  // ---------------------------------------------------------------------- the totals

  /** What the ledger line of a payment counts: nothing without a line, or without a number. */
  function Counted(p: Paid): nat { if p.recorded && p.price.Some? then p.price.value else 0 }

  /** What a transfer took beyond its ledger line. */
  function Excess(p: Paid): nat {
    if p.charge.Some? && p.charge.value.amount > Counted(p) then p.charge.value.amount - Counted(p) else 0
  }

  /** What the agent's own ledger lines count inside (low, high]. */
  function PaidIn(paid: seq<Paid>, low: int, high: int): nat {
    if paid == [] then 0
    else
      var last := paid[|paid| - 1];
      PaidIn(paid[..|paid| - 1], low, high) + if low < last.appendAt <= high then Counted(last) else 0
  }

  /** What left the wallet inside (low, high]. */
  function OnChain(paid: seq<Paid>, low: int, high: int): nat {
    if paid == [] then 0
    else
      var last := paid[|paid| - 1];
      OnChain(paid[..|paid| - 1], low, high)
      + if last.charge.Some? && low < last.charge.value.at <= high then last.charge.value.amount else 0
  }

  /** What left the wallet inside (low, high] beyond the ledger lines. */
  function ExcessIn(paid: seq<Paid>, low: int, high: int): nat {
    if paid == [] then 0
    else
      var last := paid[|paid| - 1];
      ExcessIn(paid[..|paid| - 1], low, high)
      + if last.charge.Some? && low < last.charge.value.at <= high then Excess(last) else 0
  }

  // ---------------------------------------------------------------------- invariant

  /** The last payment passed the check, against everything paid before it. */
  ghost predicate Checked(cap: int, before: seq<Paid>, last: Paid, delay: nat) {
    && last.checkAt <= last.appendAt
    && (forall j | 0 <= j < |before| :: before[j].appendAt <= last.checkAt)
    && PaidIn(before, last.checkAt - DAY_MS, last.checkAt) + Counted(last) <= cap
    && (last.charge.Some? ==> last.checkAt <= last.charge.value.at <= last.appendAt + delay)
  }

  ghost predicate Disciplined(cap: int, paid: seq<Paid>, delay: nat) {
    paid != [] ==>
      var n := |paid| - 1;
      Disciplined(cap, paid[..n], delay) && Checked(cap, paid[..n], paid[n], delay)
  }

  /** Every payment the agent recorded is in the ledger, on top of what was there at the start. */
  ghost predicate Accounted(s: State, start: seq<LedgerEntry>) {
    forall low, high :: Spent(Entries(s.ledger), low, high) == Spent(start, low, high) + PaidIn(s.paid, low, high)
  }

  ghost predicate Sound(c: Settings, s: State) {
    && NoRefunds(Entries(s.ledger)) && WrittenBy(Entries(s.ledger), s.clock)
    && WithinCap(Entries(s.ledger), DAY_MS, c.cap)
  }

  ghost predicate Inv(c: Settings, s: State, start: seq<LedgerEntry>, delay: nat) {
    && Sound(c, s) && Accounted(s, start) && NoRefunds(start)
    && Disciplined(c.cap, s.paid, delay)
    && (forall j | 0 <= j < |s.paid| :: s.paid[j].appendAt <= s.clock)
  }

  // -------------------------------------------------------------------- single steps

  lemma LogEntries(s: State, result: string, price: Option<nat>, r: Round)
    ensures Entries(Log(s, result, price, r).ledger)
         == Entries(s.ledger) + [LedgerEntry(result, Micros(price), Some(r.appendAt))]
  {
    var t := Log(s, result, price, r);
    assert t.ledger[..|s.ledger|] == s.ledger;
  }

  /** Appending a line that is not a spend changes no total. */
  lemma PlainLog(c: Settings, s: State, result: string, price: Option<nat>, r: Round, start: seq<LedgerEntry>,
                 delay: nat)
    requires Inv(c, s, start, delay) && s.clock <= r.appendAt && !IsSpend(result)
    ensures Inv(c, Log(s, result, price, r), start, delay)
  {
    hide Disciplined, IsSpend;
    var t := Log(s, result, price, r);
    var e := LedgerEntry(result, Micros(price), Some(r.appendAt));
    LogEntries(s, result, price, r);
    forall low, high ensures Spent(Entries(t.ledger), low, high) == Spent(Entries(s.ledger), low, high) {
      SpentAppend(Entries(s.ledger), e, low, high);
    }
    forall u ensures SpentUpTo(Entries(t.ledger), DAY_MS, u) <= c.cap {
      assert SpentUpTo(Entries(s.ledger), DAY_MS, u) <= c.cap;
    }
    AppendFacts(Entries(s.ledger), e, s.clock, r.appendAt);
  }

  lemma AppendFacts(entries: seq<LedgerEntry>, e: LedgerEntry, clock: int, later: int)
    requires NoRefunds(entries) && WrittenBy(entries, clock) && clock <= later
    requires e.time == Some(later) && (e.price.Some? ==> e.price.value >= 0)
    ensures NoRefunds(entries + [e]) && WrittenBy(entries + [e], later)
  {
  }

  lemma Tick(c: Settings, s: State, later: int, cursor: nat, errors: nat, start: seq<LedgerEntry>, delay: nat)
    requires Inv(c, s, start, delay) && s.clock <= later
    ensures Inv(c, s.(clock := later, cursor := cursor, errors := errors), start, delay)
  {
    hide Disciplined, WithinCap, NoRefunds, Accounted;
    var t := s.(clock := later, cursor := cursor, errors := errors);
    assert Accounted(s, start);
    SameTotals(s, t, start);
  }

  lemma SameTotals(s: State, t: State, start: seq<LedgerEntry>)
    requires Accounted(s, start) && t.ledger == s.ledger && t.paid == s.paid
    ensures Accounted(t, start)
  {
  }

  lemma PaidAppend(paid: seq<Paid>, p: Paid, low: int, high: int)
    ensures PaidIn(paid + [p], low, high) == PaidIn(paid, low, high)
      + if low < p.appendAt <= high then Counted(p) else 0
  {
    assert (paid + [p])[..|paid|] == paid;
  }

  /** The agent's own lines are part of what the check counted; at no price they are within the cap. */
  lemma CheckCounts(c: Settings, s: State, start: seq<LedgerEntry>, delay: nat, price: Option<nat>, checkAt: int)
    requires Inv(c, s, start, delay) && !OverCap(c, RunningTotal(s, checkAt), price)
    ensures PaidIn(s.paid, checkAt - DAY_MS, checkAt) + (if price.Some? then price.value else 0) <= c.cap
  {
    hide Disciplined, NoRefunds, WrittenBy;
    SpentNonNegative(start, checkAt - DAY_MS, checkAt);
    assert SpentUpTo(Entries(s.ledger), DAY_MS, checkAt) <= c.cap;
    assert Spent(Entries(s.ledger), checkAt - DAY_MS, checkAt)
        == Spent(start, checkAt - DAY_MS, checkAt) + PaidIn(s.paid, checkAt - DAY_MS, checkAt);
  }

  lemma DisciplinedAppend(cap: int, paid: seq<Paid>, p: Paid, delay: nat)
    requires Disciplined(cap, paid, delay) && Checked(cap, paid, p, delay)
    ensures Disciplined(cap, paid + [p], delay)
  {
    assert (paid + [p])[..|paid|] == paid;
  }

  /** A payment whose outcome is recorded. */
  lemma RecordedPayment(c: Settings, s: State, result: string, price: Option<nat>, r: Round,
                        start: seq<LedgerEntry>, delay: nat)
    requires Inv(c, s, start, delay) && Plausible(s, r, delay) && IsSpend(result)
    requires !OverCap(c, RunningTotal(s, r.checkAt), price)
    ensures var p := Paid(r.checkAt, r.appendAt, price, true, r.charge);
      Inv(c, Log(s.(paid := s.paid + [p]), result, price, r), start, delay)
  {
    hide Disciplined, Spent, PaidIn, WithinCap;
    var p := Paid(r.checkAt, r.appendAt, price, true, r.charge);
    var t := Log(s.(paid := s.paid + [p]), result, price, r);
    var e := LedgerEntry(result, Micros(price), Some(r.appendAt));
    var entries := Entries(s.ledger);
    LogEntries(s.(paid := s.paid + [p]), result, price, r);
    CheckCounts(c, s, start, delay, price, r.checkAt);
    DisciplinedAppend(c.cap, s.paid, p, delay);
    AppendFacts(entries, e, s.clock, r.appendAt);
    EarlierWriting(entries, s.clock, r.checkAt);
    if price.Some? {
      AppendKeepsCap(entries, e, r.checkAt, DAY_MS, c.cap);
    } else {
      UncountedKeepsCap(entries, e, c.cap);
    }
    SpendAccounted(s, t, p, e, start);
  }

  /** A line without a number changes no total. */
  lemma UncountedKeepsCap(entries: seq<LedgerEntry>, e: LedgerEntry, cap: int)
    requires WithinCap(entries, DAY_MS, cap) && e.price.None?
    ensures WithinCap(entries + [e], DAY_MS, cap)
  {
    forall t ensures SpentUpTo(entries + [e], DAY_MS, t) <= cap {
      SpentAppend(entries, e, t - DAY_MS, t);
      assert SpentUpTo(entries, DAY_MS, t) <= cap;
    }
  }

  lemma EarlierWriting(entries: seq<LedgerEntry>, clock: int, later: int)
    requires WrittenBy(entries, clock) && clock <= later
    ensures WrittenBy(entries, later)
  {
  }

  lemma SpendAccounted(s: State, t: State, p: Paid, e: LedgerEntry, start: seq<LedgerEntry>)
    requires Accounted(s, start) && Entries(t.ledger) == Entries(s.ledger) + [e] && t.paid == s.paid + [p]
    requires IsSpend(e.result) && p.recorded && e.price == Micros(p.price) && e.time == Some(p.appendAt)
    ensures Accounted(t, start)
  {
    hide IsSpend;
    forall low, high
      ensures Spent(Entries(t.ledger), low, high) == Spent(start, low, high) + PaidIn(t.paid, low, high)
    {
      assert Spent(Entries(s.ledger), low, high) == Spent(start, low, high) + PaidIn(s.paid, low, high);
      SpentAppend(Entries(s.ledger), e, low, high);
      PaidAppend(s.paid, p, low, high);
    }
  }

  /** A payment that the seller refused, or says it refused. */
  lemma RefusedPayment(c: Settings, s: State, price: Option<nat>, r: Round, start: seq<LedgerEntry>, delay: nat)
    requires Inv(c, s, start, delay) && Plausible(s, r, delay)
    requires !OverCap(c, RunningTotal(s, r.checkAt), price)
    ensures var p := Paid(r.checkAt, r.appendAt, price, false, r.charge);
      Inv(c, s.(paid := s.paid + [p], clock := r.appendAt), start, delay)
  {
    hide Disciplined, Spent, PaidIn, WithinCap;
    var p := Paid(r.checkAt, r.appendAt, price, false, r.charge);
    var t := s.(paid := s.paid + [p], clock := r.appendAt);
    CheckCounts(c, s, start, delay, price, r.checkAt);
    DisciplinedAppend(c.cap, s.paid, p, delay);
    forall low, high
      ensures Spent(Entries(t.ledger), low, high) == Spent(start, low, high) + PaidIn(t.paid, low, high)
    {
      PaidAppend(s.paid, p, low, high);
    }
  }

  lemma PaymentKeeps(c: Settings, s: State, price: Option<nat>, r: Round, start: seq<LedgerEntry>, delay: nat)
    requires Inv(c, s, start, delay) && Plausible(s, r, delay)
    requires !OverCap(c, RunningTotal(s, r.checkAt), price)
    ensures Inv(c, AfterPayment(s, price, r).0, start, delay)
    ensures AfterPayment(s, price, r).0.clock == r.appendAt
  {
    hide Inv, IsSpend, Plausible;
    PlausibleClock(s, r, delay);
    var t := AfterPayment(s, price, r).0;
    SpendResults();
    if r.response == Lost {
      RecordedPayment(c, s, UNCONFIRMED, price, r, start, delay);
      var p := Paid(r.checkAt, r.appendAt, price, true, r.charge);
      var u := Log(s.(paid := s.paid + [p]), UNCONFIRMED, price, r);
      Tick(c, u, r.appendAt, s.cursor + 1, s.errors, start, delay);
      assert t == u.(clock := r.appendAt, cursor := s.cursor + 1, errors := s.errors);
    } else if r.response == Status(200) {
      RecordedPayment(c, s, SUCCESS, price, r, start, delay);
      var p := Paid(r.checkAt, r.appendAt, price, true, r.charge);
      var u := Log(s.(paid := s.paid + [p]), SUCCESS, price, r);
      Tick(c, u, r.appendAt, s.cursor + 1, 0, start, delay);
      assert t == u.(clock := r.appendAt, cursor := s.cursor + 1, errors := 0);
    } else {
      RefusedPayment(c, s, price, r, start, delay);
      var p := Paid(r.checkAt, r.appendAt, price, false, r.charge);
      var u := s.(paid := s.paid + [p], clock := r.appendAt);
      Tick(c, u, r.appendAt, s.cursor + 1, s.errors, start, delay);
      var v := u.(clock := r.appendAt, cursor := s.cursor + 1, errors := s.errors);
      if r.response == Status(401) || r.response == Status(403) {
        PlainLog(c, v, "mandate_refused", None, r, start, delay);
        assert t == Log(v, "mandate_refused", None, r);
      } else {
        assert t == v;
      }
    }
  }

  lemma PlausibleClock(s: State, r: Round, delay: nat)
    requires Plausible(s, r, delay)
    ensures s.clock <= r.checkAt <= r.appendAt
  {
  }

  lemma SpendResults()
    ensures IsSpend(SUCCESS) && IsSpend(UNCONFIRMED)
    ensures !IsSpend("mandate_refused") && !IsSpend("mandate_invalid") && !IsSpend("card_rejected")
    ensures !IsSpend("scope_rejected") && !IsSpend("cap_reached") && !IsSpend("loop_paused")
  {
    assert SUCCESS[0] == 's' && UNCONFIRMED[0] == 'p' && |SUCCESS| == 7;
    assert |"scope_rejected"| == 14;
  }

  lemma PurchaseKeeps(c: Settings, s: State, r: Round, start: seq<LedgerEntry>, delay: nat)
    requires Inv(c, s, start, delay) && Plausible(s, r, delay)
    ensures Inv(c, Purchase(c, s, r).0, start, delay) && Purchase(c, s, r).0.clock == r.appendAt
  {
    hide Inv, IsSpend, AfterPayment, RunningTotal, Affordable;
    SpendResults();
    if !r.enabled {
      Tick(c, s, r.appendAt, s.cursor, s.errors, start, delay);
    } else if !r.mandateValid {
      PlainLog(c, s, "mandate_invalid", None, r, start, delay);
    } else if r.discovery.CardRejected? {
      PlainLog(c, s, "card_rejected", None, r, start, delay);
    } else if r.discovery.DiscoveryFailed? || r.discovery.offers == [] {
      Tick(c, s, r.appendAt, s.cursor, s.errors, start, delay);
    } else {
      OfferedKeeps(c, s, r, start, delay);
    }
  }

  lemma OfferedKeeps(c: Settings, s: State, r: Round, start: seq<LedgerEntry>, delay: nat)
    requires Inv(c, s, start, delay) && Plausible(s, r, delay)
    requires r.enabled && r.mandateValid && r.discovery.Offers? && r.discovery.offers != []
    ensures Inv(c, Purchase(c, s, r).0, start, delay) && Purchase(c, s, r).0.clock == r.appendAt
  {
    hide Inv, IsSpend, AfterPayment, RunningTotal, Chosen;
    SpendResults();
    match Chosen(c, s, r)
    case None => PlainLog(c, s, "scope_rejected", None, r, start, delay);
    case Some(offer) =>
      if OverCap(c, RunningTotal(s, r.checkAt), offer.price) {
        Tick(c, s, s.clock, s.cursor + 1, s.errors, start, delay);
        PlainLog(c, s.(clock := s.clock, cursor := s.cursor + 1, errors := s.errors),
                 "cap_reached", offer.price, r, start, delay);
      } else {
        PaymentKeeps(c, s, offer.price, r, start, delay);
      }
  }

  lemma RoundKeeps(c: Settings, s: State, o: Outcome, r: Round, start: seq<LedgerEntry>, delay: nat)
    requires Inv(c, s, start, delay) && s.clock == r.appendAt
    ensures Inv(c, AfterRound(s, o, r), start, delay)
  {
    hide Inv, IsSpend;
    SpendResults();
    if BacksOff(o) && s.errors + 1 >= MAX_RETRIES {
      PlainLog(c, s, "loop_paused", None, r, start, delay);
      var t := Log(s, "loop_paused", None, r);
      Tick(c, t, t.clock, t.cursor, 0, start, delay);
    } else if BacksOff(o) {
      Tick(c, s, s.clock, s.cursor, s.errors + 1, start, delay);
    }
  }

  // -------------------------------------------------------------------------- runs

  lemma {:induction false} LoopKeeps(c: Settings, s: State, rounds: seq<Round>, start: seq<LedgerEntry>, delay: nat)
    requires Inv(c, s, start, delay) && GoodLoop(c, s, rounds, delay)
    ensures Inv(c, Loop(c, s, rounds), start, delay)
    decreases |rounds|
  {
    hide Inv, Purchase, AfterRound, Plausible;
    if rounds != [] {
      var (t, o) := Purchase(c, s, rounds[0]);
      PurchaseKeeps(c, s, rounds[0], start, delay);
      if !Stops(o) {
        RoundKeeps(c, t, o, rounds[0], start, delay);
        LoopKeeps(c, AfterRound(t, o, rounds[0]), rounds[1..], start, delay);
      }
    }
  }

  lemma {:induction false} SessionsKeep(c: Settings, s: State, sessions: seq<seq<Round>>, start: seq<LedgerEntry>,
                                        delay: nat)
    requires Inv(c, s, start, delay) && GoodSessions(c, s, sessions, delay)
    ensures Inv(c, Sessions(c, s, sessions), start, delay)
    decreases |sessions|
  {
    hide Inv, Loop, GoodLoop;
    if sessions != [] {
      Tick(c, s, s.clock, 0, 0, start, delay);
      LoopKeeps(c, Restart(s), sessions[0], start, delay);
      SessionsKeep(c, Loop(c, Restart(s), sessions[0]), sessions[1..], start, delay);
    }
  }

  // ------------------------------------------------------------------- what is spent

  /** Transfers in a window shortened by the delay have ledger lines in the full window of a later check. */
  lemma {:induction false} ChargesHaveLines(cap: int, paid: seq<Paid>, delay: nat, check: int, t: int)
    requires Disciplined(cap, paid, delay) && delay <= DAY_MS && check <= t
    requires forall j | 0 <= j < |paid| :: paid[j].appendAt <= check
    ensures OnChain(paid, t - (DAY_MS - delay), t)
         <= PaidIn(paid, check - DAY_MS, check) + ExcessIn(paid, t - (DAY_MS - delay), t)
  {
    if paid != [] {
      ChargesHaveLines(cap, paid[..|paid| - 1], delay, check, t);
    }
  }

  lemma {:induction false} OnChainBound(cap: nat, paid: seq<Paid>, delay: nat, t: int)
    requires Disciplined(cap, paid, delay) && delay <= DAY_MS
    ensures OnChain(paid, t - (DAY_MS - delay), t) <= cap + ExcessIn(paid, t - (DAY_MS - delay), t)
  {
    if paid != [] {
      var n := |paid| - 1;
      OnChainBound(cap, paid[..n], delay, t);
      if paid[n].charge.Some? && paid[n].checkAt <= t {
        ChargesHaveLines(cap, paid[..n], delay, paid[n].checkAt, t);
      }
    }
  }

  /** A transfer that takes no more than its ledger line counts. */
  predicate Covered(p: Paid) { p.charge.Some? ==> p.charge.value.amount <= Counted(p) }

  lemma {:induction false} CoveredHasNoExcess(paid: seq<Paid>, low: int, high: int)
    requires forall i | 0 <= i < |paid| :: Covered(paid[i])
    ensures ExcessIn(paid, low, high) == 0
  {
    if paid != [] { CoveredHasNoExcess(paid[..|paid| - 1], low, high); }
  }

  ghost predicate GoodStart(c: Settings, s: State) { Sound(c, s) && s.paid == [] }

  /**
   The cap, over every run against any seller: any sessions of any rounds from a ledger that
   respects it. In any 24 hours the ledger counts at most the cap, and it counts exactly what
   was there before and the lines of the payments. When a transfer executes at most `delay`
   after its line, what leaves the wallet in any window of 24 hours less the delay is at most
   the cap and what transfers in it took beyond their lines: so at most the cap, if each
   transfer is covered by its line.
   */
  lemma CapHolds(c: Settings, s: State, sessions: seq<seq<Round>>, delay: nat, t: int)
    requires GoodStart(c, s) && delay <= DAY_MS && GoodSessions(c, s, sessions, delay)
    ensures var end := Sessions(c, s, sessions);
      && Spent(Entries(end.ledger), t - DAY_MS, t) <= c.cap
      && (forall low, high ::
            Spent(Entries(end.ledger), low, high) == Spent(Entries(s.ledger), low, high) + PaidIn(end.paid, low, high))
      && OnChain(end.paid, t - (DAY_MS - delay), t) <= c.cap + ExcessIn(end.paid, t - (DAY_MS - delay), t)
      && ((forall i | 0 <= i < |end.paid| :: Covered(end.paid[i])) ==>
            OnChain(end.paid, t - (DAY_MS - delay), t) <= c.cap)
  {
    hide Sessions, GoodSessions, Covered;
    SessionsKeep(c, s, sessions, Entries(s.ledger), delay);
    var end := Sessions(c, s, sessions);
    assert SpentUpTo(Entries(end.ledger), DAY_MS, t) <= c.cap;
    OnChainBound(c.cap, end.paid, delay, t);
    if forall i | 0 <= i < |end.paid| :: Covered(end.paid[i]) {
      CoveredHasNoExcess(end.paid, t - (DAY_MS - delay), t);
    }
  }

  // ------------------------------------------------------------- what is not counted

  /** The answer after which the agent writes a ledger line: 200, or none that arrived. */
  predicate Heard(r: Round) { r.response == Lost || r.response == Status(200) }

  /** A seller that takes at most the checked price. */
  predicate HonestCharge(price: Option<nat>, r: Round) {
    r.charge.Some? && price.Some? ==> r.charge.value.amount <= price.value
  }

  /**
   What an honest seller takes is covered by the agent's ledger line if and only if the price
   parsed and the answer was 200 or got lost: in every state, the total of each window around
   the line then grows by at least the amount, and otherwise no total changes.
   */
  lemma ChargeCountedIff(c: Settings, s: State, r: Round, price: Option<nat>)
    requires Pays(c, s, r) == Some(price) && HonestCharge(price, r)
    requires r.charge.Some? && r.charge.value.amount > 0
    ensures var t := Purchase(c, s, r).0;
      && |t.paid| == |s.paid| + 1
      && (Covered(t.paid[|s.paid|]) <==> price.Some? && Heard(r))
      && ((forall low, high | low < r.appendAt <= high ::
             Spent(Entries(t.ledger), low, high) >= Spent(Entries(s.ledger), low, high) + r.charge.value.amount)
          <==> price.Some? && Heard(r))
      && (!(price.Some? && Heard(r)) ==> forall low, high ::
            Spent(Entries(t.ledger), low, high) == Spent(Entries(s.ledger), low, high))
  {
    hide IsSpend, Spent, Entries, Chosen, OverCap, RunningTotal, AfterPayment, Purchase;
    assert Purchase(c, s, r) == AfterPayment(s, price, r) by { PaysMeans(c, s, r, price); }
    PaymentRecords(s, price, r);
    PaymentCounts(s, price, r);
    var t := Purchase(c, s, r).0;
    assert r.appendAt - 1 < r.appendAt <= r.appendAt;
    assert Spent(Entries(t.ledger), r.appendAt - 1, r.appendAt)
        == Spent(Entries(s.ledger), r.appendAt - 1, r.appendAt)
           + if price.Some? && Heard(r) then price.value else 0;
  }

  /** What a payment adds to the ledger's totals. */
  lemma PaymentCounts(s: State, price: Option<nat>, r: Round)
    ensures forall low, high ::
      Spent(Entries(AfterPayment(s, price, r).0.ledger), low, high)
      == Spent(Entries(s.ledger), low, high)
         + if price.Some? && Heard(r) && low < r.appendAt <= high then price.value else 0
  {
    hide IsSpend, Spent, Entries;
    SpendResults();
    var t := AfterPayment(s, price, r).0;
    var refused := r.response == Status(401) || r.response == Status(403);
    if Heard(r) || refused {
      var e := if refused then LedgerEntry("mandate_refused", None, Some(r.appendAt))
               else LedgerEntry(if r.response == Lost then UNCONFIRMED else SUCCESS, Micros(price), Some(r.appendAt));
      assert t.ledger == s.ledger + [Record(e)];
      forall low, high
        ensures Spent(Entries(t.ledger), low, high) == Spent(Entries(s.ledger), low, high) + Amount(e, low, high)
      {
        LineCounts(s.ledger, e, low, high);
      }
    } else {
      assert t.ledger == s.ledger;
    }
  }

  lemma PaysMeans(c: Settings, s: State, r: Round, price: Option<nat>)
    requires Pays(c, s, r) == Some(price)
    ensures Purchase(c, s, r) == AfterPayment(s, price, r)
  {
    hide AfterPayment, OverCap, RunningTotal, Affordable;
    if r.discovery.Offers? && r.discovery.offers == [] { NothingAffordable(c, r.accepted); }
  }

  lemma NothingAffordable(c: Settings, accepted: seq<bool>)
    ensures Affordable(c, [], accepted) == []
  {
  }

  lemma LineCounts(ledger: seq<Line>, e: LedgerEntry, low: int, high: int)
    ensures Spent(Entries(ledger + [Record(e)]), low, high) == Spent(Entries(ledger), low, high) + Amount(e, low, high)
  {
    hide Amount;
    assert (ledger + [Record(e)])[..|ledger|] == ledger;
    SpentAppend(Entries(ledger), e, low, high);
  }

  /**
   Why the price must parse: in every state in which a round pays for an offer without a
   price, an answer of 200 or a lost one lets the seller take any amount. The run stays
   plausible and the seller honest, the cap is passed, and no total of the ledger changes.
   */
  lemma UnparsedPriceBreaksCap(c: Settings, s: State, r: Round, amount: nat)
    requires s.clock <= r.checkAt <= r.appendAt && Pays(c, s, r) == Some(None)
    requires Heard(r) && amount > c.cap
    ensures var taken := r.(charge := Some(Charge(amount, r.checkAt)));
      var t := Purchase(c, s, taken).0;
      && Plausible(s, taken, 0) && HonestCharge(None, taken)
      && OnChain(t.paid, r.checkAt - DAY_MS, r.checkAt) > c.cap
      && forall low, high :: Spent(Entries(t.ledger), low, high) == Spent(Entries(s.ledger), low, high)
  {
    hide Chosen, Spent, Entries, IsSpend, OverCap, RunningTotal, AfterPayment, Purchase;
    var taken := r.(charge := Some(Charge(amount, r.checkAt)));
    assert Pays(c, s, taken) == Some(None) by { ChargeDoesNotDecide(c, s, r, taken); }
    ChargeCountedIff(c, s, taken, None);
    var t := Purchase(c, s, taken).0;
    assert t.paid == s.paid + [Paid(r.checkAt, r.appendAt, None, true, taken.charge)] by {
      PaysMeans(c, s, taken, None);
      PaymentRecords(s, None, taken);
    }
    assert t.paid[..|s.paid|] == s.paid;
  }

  lemma PaymentRecords(s: State, price: Option<nat>, r: Round)
    ensures AfterPayment(s, price, r).0.paid
         == s.paid + [Paid(r.checkAt, r.appendAt, price, Heard(r), r.charge)]
  {
  }

  lemma ChargeDoesNotDecide(c: Settings, s: State, r: Round, q: Round)
    requires q == r.(charge := q.charge)
    ensures Pays(c, s, q) == Pays(c, s, r)
  {
  }

  function Micros(price: Option<nat>): Option<int> { if price.Some? then Some(price.value) else None }
}
