/** One paid request from its handler to its delivery, when nobody interleaves with it. */
module PaidRequest {
  import opened Options
  import opened PaidRoute
  import opened Replay

  /** Where a request waits for its handler: behind the replay check, if there is one. */
  predicate AtTheHandler(c: Config, r: Request) { r.phase == if c.kv then Keyed else Verified }

  /** The handler answers, and the payment middleware does what it can. */
  function Finishing(i: nat, status: int, tx: string, ok: bool, hasTx: bool): seq<Event> {
    [Handle(i, status), Submit(i)] + [Mine(i, tx), Report(i, ok, hasTx), Deliver(i)]
  }

  lemma HandledIs(c: Config, s: State, i: nat, status: int, oldTxs: set<string>)
    requires i < |s.requests| && AtTheHandler(c, s.requests[i])
    ensures Both(c, s, Handle(i, status), Submit(i), oldTxs)
         == Note(InPhase(s, i, if status < 400 then Submitted else Closed),
                 HandlerDone(i, s.requests[i].header, status))
  {
    hide AuthUsed, TxUsed;
    var t := Next(c, s, Handle(i, status), oldTxs);
    assert t.requests[i := s.requests[i].(phase := Submitted)] == s.requests[i := s.requests[i].(phase := Submitted)];
  }

  lemma RefusedStays(c: Config, s: State, i: nat, tx: string, ok: bool, hasTx: bool, oldTxs: set<string>)
    requires i < |s.requests| && s.requests[i].phase == Closed
    ensures Run(c, s, [Mine(i, tx), Report(i, ok, hasTx), Deliver(i)], oldTxs) == s
  {
    hide AuthUsed, TxUsed, Run;
    ThreeSteps(c, s, Mine(i, tx), Report(i, ok, hasTx), Deliver(i), oldTxs);
  }

  lemma SubmittedSettles(c: Config, s: State, i: nat, tx: string, ok: bool, hasTx: bool, oldTxs: set<string>)
    requires i < |s.requests| && s.requests[i].phase == Submitted
    requires !AuthUsed(c, s.trace, c.authOf(s.requests[i].header))
    requires !TxUsed(s.trace, tx) && tx !in oldTxs && tx != ""
    ensures var header := s.requests[i].header;
      Run(c, s, [Mine(i, tx), Report(i, ok, hasTx), Deliver(i)], oldTxs).trace
      == s.trace + [Settled(i, header, tx)] + if ok then [DeliveredTo(i, header)] else []
  {
    hide AuthUsed, TxUsed, Run;
    ThreeSteps(c, s, Mine(i, tx), Report(i, ok, hasTx), Deliver(i), oldTxs);
    assert Next(c, s, Mine(i, tx), oldTxs) == Note(InPhase(s, i, Mined(tx)), Settled(i, s.requests[i].header, tx));
  }

  /**
   A handler answer below 400, and no other, is settled; and the resource is delivered exactly
   if the settlement was reported. Otherwise nothing happens after the handler's answer.
   */
  lemma SettlesIffBelow400(c: Config, s: State, i: nat, status: int, tx: string, ok: bool, hasTx: bool,
                           oldTxs: set<string>)
    requires i < |s.requests| && AtTheHandler(c, s.requests[i])
    requires !AuthUsed(c, s.trace, c.authOf(s.requests[i].header))
    requires !TxUsed(s.trace, tx) && tx !in oldTxs && tx != ""
    ensures var header := s.requests[i].header;
      Run(c, s, Finishing(i, status, tx, ok, hasTx), oldTxs).trace
      == s.trace + [HandlerDone(i, header, status)]
         + (if status < 400 then [Settled(i, header, tx)] else [])
         + if status < 400 && ok then [DeliveredTo(i, header)] else []
  {
    hide Run;
    var t := Both(c, s, Handle(i, status), Submit(i), oldTxs);
    TwoSteps(c, s, Handle(i, status), Submit(i), [Mine(i, tx), Report(i, ok, hasTx), Deliver(i)], oldTxs);
    HandledIs(c, s, i, status, oldTxs);
    if status < 400 {
      SubmittedSettles(c, t, i, tx, ok, hasTx, oldTxs);
    } else {
      RefusedStays(c, t, i, tx, ok, hasTx, oldTxs);
    }
  }

  /**
   A transfer that executes after the payment middleware gave up on it is a settlement all the
   same, and the resource is not delivered for it, whatever is reported later.
   */
  lemma LateSettlementUndelivered(c: Config, s: State, i: nat, tx: string, hasTx: bool, oldTxs: set<string>)
    requires i < |s.requests| && s.requests[i].phase == Submitted
    requires !AuthUsed(c, s.trace, c.authOf(s.requests[i].header))
    requires !TxUsed(s.trace, tx) && tx !in oldTxs && tx != ""
    ensures Run(c, s, [Report(i, false, hasTx), Mine(i, tx)] + [Report(i, true, true), Deliver(i)], oldTxs)
         == Note(InPhase(s, i, Stray(tx)), Settled(i, s.requests[i].header, tx))
  {
    hide AuthUsed, TxUsed, Run;
    TwoSteps(c, s, Report(i, false, hasTx), Mine(i, tx), [Report(i, true, true), Deliver(i)], oldTxs);
    var gone := InPhase(s, i, Abandoned);
    assert Next(c, s, Report(i, false, hasTx), oldTxs) == gone;
    var t := Note(InPhase(s, i, Stray(tx)), Settled(i, s.requests[i].header, tx));
    assert Next(c, gone, Mine(i, tx), oldTxs) == t by {
      assert gone.requests[i := gone.requests[i].(phase := Stray(tx))] == t.requests;
    }
    TwoSteps(c, t, Report(i, true, true), Deliver(i), [], oldTxs);
    assert [Report(i, true, true), Deliver(i)] + [] == [Report(i, true, true), Deliver(i)];
    RunNone(c, t, oldTxs);
  }

  /** A proof whose key is written is refused when the read finds the key, and never gets to the handler. */
  lemma ReplayRefused(c: Config, s: State, i: nat, status: int, oldTxs: set<string>)
    requires c.kv && i < |s.requests| && s.requests[i].phase == Arrived
    requires KeyPut(c.hash(s.requests[i].header)) in s.trace
    ensures Run(c, s, [Verify(i, true), GetKey(i, true)] + [PutKey(i), Handle(i, status)], oldTxs)
         == Note(InPhase(s, i, Closed), HandlerDone(i, s.requests[i].header, 402))
  {
    hide AuthUsed, TxUsed, Run;
    TwoSteps(c, s, Verify(i, true), GetKey(i, true), [PutKey(i), Handle(i, status)], oldTxs);
    var verified := InPhase(s, i, Verified);
    assert Next(c, s, Verify(i, true), oldTxs) == verified;
    var t := Note(InPhase(s, i, Closed), HandlerDone(i, s.requests[i].header, 402));
    assert Next(c, verified, GetKey(i, true), oldTxs) == t by {
      assert verified.requests[i := verified.requests[i].(phase := Closed)] == t.requests;
    }
    TwoSteps(c, t, PutKey(i), Handle(i, status), [], oldTxs);
    assert [PutKey(i), Handle(i, status)] + [] == [PutKey(i), Handle(i, status)];
    RunNone(c, t, oldTxs);
  }

  /** A payment the middleware does not accept is answered at once. */
  lemma UnverifiedClosed(c: Config, s: State, i: nat, found: bool, oldTxs: set<string>)
    requires i < |s.requests| && s.requests[i].phase == Arrived
    ensures Both(c, s, Verify(i, false), GetKey(i, found), oldTxs) == InPhase(s, i, Closed)
  {
    hide AuthUsed, TxUsed;
  }
}
