/**
 What every interleaving of the paid route keeps: settlement, delivery and replay keys.
 */
module Settlement {
  import opened Options
  import opened PaidRoute

  // ------------------------------------------------------------------ lawful traces

  ghost predicate KeyKnown(c: Config, trace: seq<Fact>, header: string) {
    c.kv ==> KeyPut(c.hash(header)) in trace
  }

  ghost predicate HandlerOk(trace: seq<Fact>, i: nat, header: string) {
    exists status :: status < 400 && HandlerDone(i, header, status) in trace
  }

  ghost predicate SettledBy(trace: seq<Fact>, i: nat, header: string) {
    exists tx :: Settled(i, header, tx) in trace
  }

  ghost predicate Handled(trace: seq<Fact>, i: nat) {
    exists f | f in trace :: f.HandlerDone? && f.request == i
  }

  /** May this fact come after those facts? */
  ghost predicate Follows(c: Config, before: seq<Fact>, f: Fact) {
    match f
    case KeyPut(_) => true
    case HandlerDone(i, header, status) => (status < 400 ==> KeyKnown(c, before, header)) && !Handled(before, i)
    case Settled(i, header, tx) =>
      && !AuthUsed(c, before, c.authOf(header)) && !TxUsed(before, tx)
      && HandlerOk(before, i, header) && KeyKnown(c, before, header)
    case DeliveredTo(i, header) => SettledBy(before, i, header) && f !in before
  }

  ghost predicate Lawful(c: Config, trace: seq<Fact>) {
    trace != [] ==>
      var n := |trace| - 1;
      Lawful(c, trace[..n]) && Follows(c, trace[..n], trace[n])
  }

  lemma LawfulAppend(c: Config, trace: seq<Fact>, f: Fact)
    requires Lawful(c, trace) && Follows(c, trace, f)
    ensures Lawful(c, trace + [f])
  {
    assert (trace + [f])[..|trace|] == trace;
  }

  // ---------------------------------------------------------------------- invariant

  predicate PastKey(p: Phase) { !(p.Arrived? || p.Verified? || p.Missing? || p.Closed?) }

  predicate PastHandler(p: Phase) { PastKey(p) && !p.Keyed? }

  /** What the phase of a request says about the past. */
  ghost predicate PhaseMatches(c: Config, s: State, i: nat)
    requires i < |s.requests|
  {
    var r := s.requests[i];
    && (PastKey(r.phase) ==> KeyKnown(c, s.trace, r.header))
    && (PastHandler(r.phase) ==> HandlerOk(s.trace, i, r.header))
    && (TxOf(r.phase).Some? ==> Settled(i, r.header, TxOf(r.phase).value) in s.trace)
  }

  /** What a recorded fact says about the phase of its request. */
  ghost predicate FactMatches(s: State, f: Fact) {
    match f
    case HandlerDone(i, _, status) =>
      i < |s.requests| && if status < 400 then PastHandler(s.requests[i].phase) else s.requests[i].phase.Closed?
    case Settled(i, header, tx) =>
      i < |s.requests| && s.requests[i].header == header && TxOf(s.requests[i].phase) == Some(tx)
    case DeliveredTo(i, header) => i < |s.requests| && s.requests[i].phase.Delivered?
    case _ => true
  }

  /** Does a step from one phase to another keep what was recorded about the request? */
  predicate Onward(p: Phase, q: Phase) {
    && (TxOf(p).Some? ==> TxOf(q) == TxOf(p))
    && (p.Delivered? ==> q.Delivered?)
    && (PastHandler(p) ==> PastHandler(q))
    && !p.Closed?
  }

  ghost predicate Inv(c: Config, s: State) {
    && Lawful(c, s.trace)
    && (forall i | 0 <= i < |s.requests| :: PhaseMatches(c, s, i))
    && (forall f | f in s.trace :: FactMatches(s, f))
  }

  lemma KnownStays(c: Config, s: State, t: State, i: nat)
    requires i < |s.requests| && i < |t.requests| && t.requests[i] == s.requests[i]
    requires forall f | f in s.trace :: f in t.trace
    requires PhaseMatches(c, s, i)
    ensures PhaseMatches(c, t, i)
  {
    var r := s.requests[i];
    if PastHandler(r.phase) {
      var status :| status < 400 && HandlerDone(i, r.header, status) in s.trace;
      assert HandlerDone(i, r.header, status) in t.trace;
    }
  }

  /** A request moves to a new phase without anything being recorded. */
  lemma MoveKeeps(c: Config, s: State, i: nat, phase: Phase)
    requires Inv(c, s) && i < |s.requests| && PhaseMatches(c, InPhase(s, i, phase), i)
    requires Onward(s.requests[i].phase, phase)
    ensures Inv(c, InPhase(s, i, phase))
  {
    hide Lawful, PhaseMatches, TxOf, PastHandler;
    var t := InPhase(s, i, phase);
    forall j | 0 <= j < |t.requests| ensures PhaseMatches(c, t, j) {
      if j != i { KnownStays(c, s, t, j); }
    }
    forall f | f in t.trace ensures FactMatches(t, f) {
      assert FactMatches(s, f);
    }
  }

  /** A request moves to a new phase and a fact is recorded. */
  lemma NoteKeeps(c: Config, s: State, i: nat, phase: Phase, f: Fact)
    requires Inv(c, s) && i < |s.requests| && Follows(c, s.trace, f)
    requires var t := Note(InPhase(s, i, phase), f); PhaseMatches(c, t, i) && FactMatches(t, f)
    requires Onward(s.requests[i].phase, phase)
    ensures Inv(c, Note(InPhase(s, i, phase), f))
  {
    hide Lawful, PhaseMatches, TxOf, PastHandler, Follows;
    var t := Note(InPhase(s, i, phase), f);
    LawfulAppend(c, s.trace, f);
    forall j | 0 <= j < |t.requests| ensures PhaseMatches(c, t, j) {
      if j != i { KnownStays(c, s, t, j); }
    }
    forall g | g in t.trace ensures FactMatches(t, g) {
      if g in s.trace { assert FactMatches(s, g); }
    }
  }

  lemma ArriveKeeps(c: Config, s: State, r: Request)
    requires Inv(c, s) && r.phase == Arrived
    ensures Inv(c, s.(requests := s.requests + [r]))
  {
    hide Lawful, PhaseMatches;
    var t := s.(requests := s.requests + [r]);
    forall j | 0 <= j < |t.requests| ensures PhaseMatches(c, t, j) {
      if j < |s.requests| { KnownStays(c, s, t, j); } else { NewMatches(c, t, j); }
    }
    forall f | f in t.trace ensures FactMatches(t, f) {
      assert FactMatches(s, f);
    }
  }

  lemma NewMatches(c: Config, t: State, j: nat)
    requires j < |t.requests| && t.requests[j].phase == Arrived
    ensures PhaseMatches(c, t, j)
  {
  }

  /** The versions of the receipt log play no part in this invariant. */
  lemma VersionsKeep(c: Config, s: State, versions: seq<Log>)
    requires Inv(c, s)
    ensures Inv(c, s.(versions := versions))
  {
    hide Lawful;
    var t := s.(versions := versions);
    forall j | 0 <= j < |t.requests| ensures PhaseMatches(c, t, j) {
      KnownStays(c, s, t, j);
    }
    forall f | f in t.trace ensures FactMatches(t, f) {
      assert FactMatches(s, f);
    }
  }

  lemma MineKeeps(c: Config, s: State, i: nat, tx: string, phase: Phase)
    requires Inv(c, s) && i < |s.requests|
    requires s.requests[i].phase.Submitted? || s.requests[i].phase.Abandoned?
    requires phase == Mined(tx) || phase == Stray(tx)
    requires !AuthUsed(c, s.trace, c.authOf(s.requests[i].header)) && !TxUsed(s.trace, tx)
    ensures Inv(c, Note(InPhase(s, i, phase), Settled(i, s.requests[i].header, tx)))
  {
    hide Lawful;
    var f := Settled(i, s.requests[i].header, tx);
    assert PhaseMatches(c, s, i);
    NoteKeeps(c, s, i, phase, f);
  }

  lemma HandleKeeps(c: Config, s: State, i: nat, status: int)
    requires Inv(c, s) && i < |s.requests|
    requires s.requests[i].phase.Keyed? || (!c.kv && s.requests[i].phase.Verified?)
    ensures var next := if status < 400 then Ready else Closed;
      Inv(c, Note(InPhase(s, i, next), HandlerDone(i, s.requests[i].header, status)))
  {
    hide Lawful;
    var f := HandlerDone(i, s.requests[i].header, status);
    assert PhaseMatches(c, s, i);
    assert f in s.trace + [f];
    NoteKeeps(c, s, i, if status < 400 then Ready else Closed, f);
  }

  lemma DeliverKeeps(c: Config, s: State, i: nat, tx: string)
    requires Inv(c, s) && i < |s.requests|
    requires var p := s.requests[i].phase; (p.Confirmed? || p.Logging? || p.Logged?) && TxOf(p) == Some(tx)
    ensures Inv(c, Note(InPhase(s, i, Delivered(tx)), DeliveredTo(i, s.requests[i].header)))
  {
    hide Lawful;
    var f := DeliveredTo(i, s.requests[i].header);
    assert PhaseMatches(c, s, i);
    assert f !in s.trace || FactMatches(s, f);
    assert Settled(i, s.requests[i].header, tx) in s.trace;
    NoteKeeps(c, s, i, Delivered(tx), f);
  }

  lemma KeyKeeps(c: Config, s: State, i: nat)
    requires Inv(c, s) && i < |s.requests| && s.requests[i].phase.Missing?
    ensures Inv(c, Note(InPhase(s, i, Keyed), KeyPut(c.hash(s.requests[i].header))))
  {
    hide Lawful;
    var f := KeyPut(c.hash(s.requests[i].header));
    assert f in s.trace + [f];
    NoteKeeps(c, s, i, Keyed, f);
  }

  lemma StepKeeps(c: Config, s: State, e: Event, oldTxs: set<string>)
    requires Inv(c, s)
    ensures Inv(c, Next(c, s, e, oldTxs))
  {
    hide Lawful, Follows, AuthUsed, TxUsed, Inv;
    if e.Arrive? {
      ArriveKeeps(c, s, Request(e.header, e.payer, e.resource, e.price, Arrived));
    } else if e.request < |s.requests| {
      RequestStepKeeps(c, s, e, e.request, oldTxs);
    }
  }

  lemma RequestStepKeeps(c: Config, s: State, e: Event, i: nat, oldTxs: set<string>)
    requires Inv(c, s) && i < |s.requests|
    ensures Inv(c, NextOf(c, s, e, i, s.requests[i], oldTxs))
  {
    hide Inv, NextOf;
    if PastHandler(s.requests[i].phase) {
      LateStepKeeps(c, s, e, i, oldTxs);
    } else {
      EarlyStepKeeps(c, s, e, i, oldTxs);
    }
  }

  lemma EarlyStepKeeps(c: Config, s: State, e: Event, i: nat, oldTxs: set<string>)
    requires Inv(c, s) && i < |s.requests| && !PastHandler(s.requests[i].phase)
    ensures Inv(c, NextOf(c, s, e, i, s.requests[i], oldTxs))
  {
    hide Lawful, Follows, AuthUsed, TxUsed, KeyKnown, HandlerOk, FactMatches;
    var r := s.requests[i];
    assert PhaseMatches(c, s, i);
    match (e, r.phase)
    case (Verify(_, ok), Arrived) => MoveKeeps(c, s, i, if ok then Verified else Closed);
    case (GetKey(_, found), Verified) =>
      if found { ReplayKeeps(c, s, i); } else { MoveKeeps(c, s, i, Missing); }
    case (PutKey(_), Missing) => KeyKeeps(c, s, i);
    case (Handle(_, status), Verified) => if !c.kv { HandleKeeps(c, s, i, status); }
    case (Handle(_, status), Keyed) => HandleKeeps(c, s, i, status);
    case _ =>
  }

  lemma LateStepKeeps(c: Config, s: State, e: Event, i: nat, oldTxs: set<string>)
    requires Inv(c, s) && i < |s.requests| && PastHandler(s.requests[i].phase)
    ensures Inv(c, NextOf(c, s, e, i, s.requests[i], oldTxs))
  {
    hide Lawful, Follows, AuthUsed, TxUsed, KeyKnown, HandlerOk, FactMatches;
    var r := s.requests[i];
    assert PhaseMatches(c, s, i);
    match (e, r.phase)
    case (Submit(_), Ready) => MoveKeeps(c, s, i, Submitted);
    case (Mine(_, tx), Submitted) =>
      if !AuthUsed(c, s.trace, c.authOf(r.header)) && !TxUsed(s.trace, tx) { MineKeeps(c, s, i, tx, Mined(tx)); }
    case (Mine(_, tx), Abandoned) =>
      if !AuthUsed(c, s.trace, c.authOf(r.header)) && !TxUsed(s.trace, tx) { MineKeeps(c, s, i, tx, Stray(tx)); }
    case (Report(_, ok, _), Submitted) => MoveKeeps(c, s, i, Abandoned);
    case (Report(_, ok, hasTx), Mined(tx)) => MoveKeeps(c, s, i, if ok then Confirmed(tx, hasTx) else Stray(tx));
    case (ReadLog(_, k, now), Confirmed(tx, reported)) =>
      if k < |s.versions| { MoveKeeps(c, s, i, Logging(tx, s.versions[k], now)); }
    case (WriteLog(_), Logging(tx, base, now)) =>
      MoveKeeps(c, s, i, Logged(tx));
      VersionsKeep(c, InPhase(s, i, Logged(tx)), s.versions + [Push(ReceiptFor(r, tx, now), base)]);
    case (Deliver(_), Confirmed(tx, _)) => DeliverKeeps(c, s, i, tx);
    case (Deliver(_), Logging(tx, _, _)) => DeliverKeeps(c, s, i, tx);
    case (Deliver(_), Logged(tx)) => DeliverKeeps(c, s, i, tx);
    case _ =>
  }

  lemma ReplayKeeps(c: Config, s: State, i: nat)
    requires Inv(c, s) && i < |s.requests| && s.requests[i].phase.Verified?
    ensures Inv(c, Note(InPhase(s, i, Closed), HandlerDone(i, s.requests[i].header, 402)))
  {
    hide Lawful;
    NoteKeeps(c, s, i, Closed, HandlerDone(i, s.requests[i].header, 402));
  }

  lemma {:induction false} RunKeeps(c: Config, s: State, events: seq<Event>, oldTxs: set<string>)
    requires Inv(c, s)
    ensures Inv(c, Run(c, s, events, oldTxs))
    decreases |events|
  {
    hide Inv, Next;
    if events != [] {
      StepKeeps(c, s, events[0], oldTxs);
      RunKeeps(c, Next(c, s, events[0], oldTxs), events[1..], oldTxs);
    }
  }

  // --------------------------------------------------------------- the main results

  function Settlements(c: Config, trace: seq<Fact>, auth: nat): nat {
    if trace == [] then 0
    else
      var f := trace[|trace| - 1];
      Settlements(c, trace[..|trace| - 1], auth) + if f.Settled? && c.authOf(f.header) == auth then 1 else 0
  }

  function Deliveries(c: Config, trace: seq<Fact>, auth: nat): nat {
    if trace == [] then 0
    else
      var f := trace[|trace| - 1];
      Deliveries(c, trace[..|trace| - 1], auth) + if f.DeliveredTo? && c.authOf(f.header) == auth then 1 else 0
  }

  lemma {:induction false} NotUsedNotCounted(c: Config, trace: seq<Fact>, auth: nat)
    ensures Settlements(c, trace, auth) > 0 <==> AuthUsed(c, trace, auth)
  {
    if trace != [] {
      var n := |trace| - 1;
      NotUsedNotCounted(c, trace[..n], auth);
      assert trace == trace[..n] + [trace[n]];
      assert forall f :: f in trace <==> f in trace[..n] || f == trace[n];
    }
  }

  lemma {:induction false} SettlesOnce(c: Config, trace: seq<Fact>, auth: nat)
    requires Lawful(c, trace)
    ensures Settlements(c, trace, auth) <= 1
  {
    if trace != [] {
      var n := |trace| - 1;
      SettlesOnce(c, trace[..n], auth);
      NotUsedNotCounted(c, trace[..n], auth);
    }
  }

  /** The one settlement of an authorization belongs to one request. */
  lemma {:induction false} OneSettler(c: Config, trace: seq<Fact>, f: Fact, g: Fact)
    requires Lawful(c, trace) && f in trace && g in trace && f.Settled? && g.Settled?
    requires c.authOf(f.header) == c.authOf(g.header)
    ensures f == g
  {
    var n := |trace| - 1;
    assert trace == trace[..n] + [trace[n]];
    if f in trace[..n] && g in trace[..n] {
      OneSettler(c, trace[..n], f, g);
    }
  }

  lemma {:induction false} DeliveredWasSettled(c: Config, trace: seq<Fact>, f: Fact)
    requires Lawful(c, trace) && f in trace && f.DeliveredTo?
    ensures SettledBy(trace, f.request, f.header)
  {
    var n := |trace| - 1;
    assert trace == trace[..n] + [trace[n]];
    if f in trace[..n] {
      DeliveredWasSettled(c, trace[..n], f);
      var tx :| Settled(f.request, f.header, tx) in trace[..n];
      assert Settled(f.request, f.header, tx) in trace;
    } else {
      var tx :| Settled(f.request, f.header, tx) in trace[..n];
      assert Settled(f.request, f.header, tx) in trace;
    }
  }

  lemma {:induction false} DeliveryExists(c: Config, trace: seq<Fact>, auth: nat) returns (f: Fact)
    requires Deliveries(c, trace, auth) > 0
    ensures f in trace && f.DeliveredTo? && c.authOf(f.header) == auth
  {
    var n := |trace| - 1;
    f := trace[n];
    if !(f.DeliveredTo? && c.authOf(f.header) == auth) {
      f := DeliveryExists(c, trace[..n], auth);
      assert f in trace;
    }
  }

  /** Nothing is delivered that was not settled, and not more often. */
  lemma {:induction false} DeliveriesBounded(c: Config, trace: seq<Fact>, auth: nat)
    requires Lawful(c, trace)
    ensures Deliveries(c, trace, auth) <= Settlements(c, trace, auth)
  {
    if trace != [] {
      var n := |trace| - 1;
      var before, f := trace[..n], trace[n];
      DeliveriesBounded(c, before, auth);
      if f.DeliveredTo? && c.authOf(f.header) == auth {
        FirstDelivery(c, before, f);
        var tx :| Settled(f.request, f.header, tx) in before;
        NotUsedNotCounted(c, before, auth);
      }
    }
  }

  lemma FirstDelivery(c: Config, before: seq<Fact>, f: Fact)
    requires Lawful(c, before) && f.DeliveredTo? && Follows(c, before, f)
    ensures Deliveries(c, before, c.authOf(f.header)) == 0
  {
    if Deliveries(c, before, c.authOf(f.header)) > 0 {
      var g := DeliveryExists(c, before, c.authOf(f.header));
      DeliveredWasSettled(c, before, g);
      var tx :| Settled(f.request, f.header, tx) in before;
      var tx' :| Settled(g.request, g.header, tx') in before;
      OneSettler(c, before, Settled(f.request, f.header, tx), Settled(g.request, g.header, tx'));
    }
  }

  /** A fact of a lawful trace may follow what came before it. */
  lemma {:induction false} FactFollows(c: Config, trace: seq<Fact>, n: nat)
    requires Lawful(c, trace) && n < |trace|
    ensures Lawful(c, trace[..n]) && Follows(c, trace[..n], trace[n])
  {
    if n < |trace| - 1 {
      FactFollows(c, trace[..|trace| - 1], n);
      assert trace[..|trace| - 1][..n] == trace[..n];
    }
  }

  /** A request is answered by its handler once. */
  lemma {:induction false} OneAnswer(c: Config, trace: seq<Fact>, f: Fact, g: Fact)
    requires Lawful(c, trace) && f in trace && g in trace && f.HandlerDone? && g.HandlerDone? && f.request == g.request
    ensures f == g
  {
    var n := |trace| - 1;
    assert trace == trace[..n] + [trace[n]];
    if f in trace[..n] && g in trace[..n] {
      OneAnswer(c, trace[..n], f, g);
    }
  }

  /** A request whose handler answered 400 or above is never settled, before or after. */
  lemma FailedNeverSettles(c: Config, log: Log, events: seq<Event>, oldTxs: set<string>, i: nat, header: string,
                           status: int)
    requires status >= 400 && HandlerDone(i, header, status) in Run(c, Start(log), events, oldTxs).trace
    ensures forall f | f in Run(c, Start(log), events, oldTxs).trace :: f.Settled? ==> f.request != i
  {
    hide Run;
    RunKeeps(c, Start(log), events, oldTxs);
    var trace := Run(c, Start(log), events, oldTxs).trace;
    forall f | f in trace && f.Settled? ensures f.request != i {
      var n :| 0 <= n < |trace| && trace[n] == f;
      FactFollows(c, trace, n);
      var good :| good < 400 && HandlerDone(f.request, f.header, good) in trace[..n];
      if f.request == i { OneAnswer(c, trace, HandlerDone(i, header, status), HandlerDone(i, f.header, good)); }
    }
  }

  /**
   In every interleaving: an authorization settles at most once, whichever headers encode
   it, and is never delivered more often than it settled; and each settlement comes after
   the handler answered below 400 and, with a KV bound, after the replay key was written.
   */
  lemma EveryInterleaving(c: Config, log: Log, events: seq<Event>, oldTxs: set<string>, auth: nat, n: nat)
    ensures var trace := Run(c, Start(log), events, oldTxs).trace;
      && Deliveries(c, trace, auth) <= Settlements(c, trace, auth) <= 1
      && (n < |trace| && trace[n].Settled? ==>
            && HandlerOk(trace[..n], trace[n].request, trace[n].header)
            && (c.kv ==> KeyPut(c.hash(trace[n].header)) in trace[..n]))
      && (n < |trace| && trace[n].DeliveredTo? ==> SettledBy(trace[..n], trace[n].request, trace[n].header))
  {
    hide Run;
    RunKeeps(c, Start(log), events, oldTxs);
    var trace := Run(c, Start(log), events, oldTxs).trace;
    SettlesOnce(c, trace, auth);
    DeliveriesBounded(c, trace, auth);
    if n < |trace| { FactFollows(c, trace, n); }
  }
}
