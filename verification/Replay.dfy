/**
 The replay check of src/paid-route.ts: how often the handler can run for some payment
 headers. They are given by a predicate: the headers that are one text (`Only`), or those
 that encode one authorization (`OfAuth`).

 In general the handler runs as often as there are requests that carry such a header; if
 checks do not overlap, once for each replay key.
 */
module Replay {
  import opened Options
  import opened PaidRoute

  /** The headers that are this text. */
  function Only(header: string): string -> bool { h => h == header }

  /** The headers that encode this authorization. */
  function OfAuth(c: Config, auth: nat): string -> bool { h => c.authOf(h) == auth }

  /** How often the handler answered below 400 for these headers. */
  function HandlerRuns(trace: seq<Fact>, mine: string -> bool): nat {
    if trace == [] then 0
    else
      var f := trace[|trace| - 1];
      HandlerRuns(trace[..|trace| - 1], mine)
      + if f.HandlerDone? && mine(f.header) && f.status < 400 then 1 else 0
  }

  /** How many requests with such a header are in one of these phases. */
  function Count(requests: seq<Request>, mine: string -> bool, phases: Phase -> bool): nat {
    if requests == [] then 0
    else
      var r := requests[|requests| - 1];
      Count(requests[..|requests| - 1], mine, phases) + if mine(r.header) && phases(r.phase) then 1 else 0
  }

  lemma {:induction false} CountUpdate(requests: seq<Request>, i: nat, r: Request, mine: string -> bool,
                                       phases: Phase -> bool)
    requires i < |requests| && r.header == requests[i].header
    ensures Count(requests[i := r], mine, phases)
              + (if mine(r.header) && phases(requests[i].phase) then 1 else 0)
         == Count(requests, mine, phases) + (if mine(r.header) && phases(r.phase) then 1 else 0)
  {
    var n := |requests| - 1;
    if i < n {
      assert requests[i := r][..n] == requests[..n][i := r];
      CountUpdate(requests[..n], i, r, mine, phases);
    } else {
      assert requests[i := r][..n] == requests[..n];
    }
  }

  lemma RunsAppend(trace: seq<Fact>, f: Fact, mine: string -> bool)
    ensures HandlerRuns(trace + [f], mine) == HandlerRuns(trace, mine)
      + if f.HandlerDone? && mine(f.header) && f.status < 400 then 1 else 0
  {
    assert (trace + [f])[..|trace|] == trace;
  }

  // ------------------------------------------------------------ at most once a request

  predicate Through(p: Phase) { !(p.Arrived? || p.Verified? || p.Missing? || p.Keyed?) }

  predicate AnyPhase(p: Phase) { true }

  /** The requests that arrive, in order. */
  function Arrivals(events: seq<Event>): seq<Event> {
    if events == [] then []
    else
      var n := |events| - 1;
      Arrivals(events[..n]) + if events[n].Arrive? then [events[n]] else []
  }

  /** How many of these requests carry such a header. */
  function Carriers(arrivals: seq<Event>, mine: string -> bool): nat {
    if arrivals == [] then 0
    else
      var n := |arrivals| - 1;
      Carriers(arrivals[..n], mine) + if arrivals[n].Arrive? && mine(arrivals[n].header) then 1 else 0
  }

  /** Handler runs are by requests that are through with the handler. */
  predicate Bounded(s: State, mine: string -> bool) {
    HandlerRuns(s.trace, mine) <= Count(s.requests, mine, Through)
  }

  lemma StepBounded(c: Config, s: State, e: Event, oldTxs: set<string>, mine: string -> bool)
    requires Bounded(s, mine)
    ensures Bounded(Next(c, s, e, oldTxs), mine)
    ensures Count(Next(c, s, e, oldTxs).requests, mine, AnyPhase) == Count(s.requests, mine, AnyPhase)
      + if e.Arrive? && mine(e.header) then 1 else 0
  {
    hide NextOf;
    var t := Next(c, s, e, oldTxs);
    if e.Arrive? {
      assert t.requests[..|s.requests|] == s.requests;
    } else if e.request < |s.requests| {
      RequestBounded(c, s, e, e.request, oldTxs, mine);
    }
  }

  lemma RequestBounded(c: Config, s: State, e: Event, i: nat, oldTxs: set<string>, mine: string -> bool)
    requires Bounded(s, mine) && i < |s.requests|
    ensures var t := NextOf(c, s, e, i, s.requests[i], oldTxs);
      Bounded(t, mine) && Count(t.requests, mine, AnyPhase) == Count(s.requests, mine, AnyPhase)
  {
    hide AuthUsed, TxUsed, Count, HandlerRuns;
    var t := NextOf(c, s, e, i, s.requests[i], oldTxs);
    if t != s {
      assert t.requests == s.requests[i := t.requests[i]];
      CountUpdate(s.requests, i, t.requests[i], mine, Through);
      CountUpdate(s.requests, i, t.requests[i], mine, AnyPhase);
      if t.trace != s.trace {
        var f := t.trace[|s.trace|];
        assert t.trace == s.trace + [f];
        RunsAppend(s.trace, f, mine);
      }
    }
  }

  lemma {:induction false} CountLess(requests: seq<Request>, mine: string -> bool)
    ensures Count(requests, mine, Through) <= Count(requests, mine, AnyPhase)
  {
    if requests != [] { CountLess(requests[..|requests| - 1], mine); }
  }

  lemma ArrivalsFirst(e: Event, rest: seq<Event>, mine: string -> bool)
    ensures Carriers(Arrivals([e] + rest), mine)
         == Carriers(Arrivals(rest), mine) + if e.Arrive? && mine(e.header) then 1 else 0
    decreases |rest|
  {
    var events := [e] + rest;
    var n := |rest|;
    if n == 0 {
      assert events == [e] && events[..0] == [] && [e][..0] == [];
    } else {
      ArrivalsFirst(e, rest[..n - 1], mine);
      assert events[..n] == [e] + rest[..n - 1] && events[n] == rest[n - 1];
      CarriersAppend(Arrivals(events[..n]), rest[n - 1], mine);
      CarriersAppend(Arrivals(rest[..n - 1]), rest[n - 1], mine);
    }
  }

  lemma CarriersAppend(arrivals: seq<Event>, e: Event, mine: string -> bool)
    ensures Carriers(arrivals + [e], mine) == Carriers(arrivals, mine)
      + if e.Arrive? && mine(e.header) then 1 else 0
    ensures arrivals + [] == arrivals
  {
    assert (arrivals + [e])[..|arrivals|] == arrivals;
  }

  lemma {:induction false} RunBounded(c: Config, s: State, events: seq<Event>, oldTxs: set<string>,
                                      mine: string -> bool)
    requires Bounded(s, mine)
    ensures var t := Run(c, s, events, oldTxs);
      && Bounded(t, mine)
      && Count(t.requests, mine, AnyPhase) == Count(s.requests, mine, AnyPhase) + Carriers(Arrivals(events), mine)
    decreases |events|
  {
    hide Next, Bounded, Count, Arrivals, Carriers;
    if events == [] {
      NoCarriers(mine);
    } else {
      StepBounded(c, s, events[0], oldTxs, mine);
      RunBounded(c, Next(c, s, events[0], oldTxs), events[1..], oldTxs, mine);
      assert events == [events[0]] + events[1..];
      ArrivalsFirst(events[0], events[1..], mine);
    }
  }

  lemma NoCarriers(mine: string -> bool)
    ensures Carriers(Arrivals([]), mine) == 0
  {
  }

  /** In every interleaving, the handler runs at most once for each request that carries such a header. */
  lemma RunsPerRequest(c: Config, log: Log, events: seq<Event>, oldTxs: set<string>, mine: string -> bool)
    ensures HandlerRuns(Run(c, Start(log), events, oldTxs).trace, mine) <= Carriers(Arrivals(events), mine)
  {
    hide Run;
    RunBounded(c, Start(log), events, oldTxs, mine);
    CountLess(Run(c, Start(log), events, oldTxs).requests, mine);
  }

  // ---------------------------------------------------- two requests, two handler runs

  /** Two requests with such headers are in this phase, and the handler has run n times for them. */
  predicate Pair(s: State, i: nat, j: nat, mine: string -> bool, phase: Phase, n: nat) {
    && i < j < |s.requests| && mine(s.requests[i].header) && mine(s.requests[j].header)
    && s.requests[i].phase == phase && s.requests[j].phase == phase && HandlerRuns(s.trace, mine) == n
  }

  function Both(c: Config, s: State, d: Event, e: Event, oldTxs: set<string>): State {
    Next(c, Next(c, s, d, oldTxs), e, oldTxs)
  }

  lemma BothVerified(c: Config, s: State, i: nat, j: nat, oldTxs: set<string>, mine: string -> bool, n: nat)
    requires Pair(s, i, j, mine, Arrived, n)
    ensures Pair(Both(c, s, Verify(i, true), Verify(j, true), oldTxs), i, j, mine, Verified, n)
  {
    hide AuthUsed, TxUsed, HandlerRuns;
  }

  lemma BothRead(c: Config, s: State, i: nat, j: nat, oldTxs: set<string>, mine: string -> bool, n: nat)
    requires Pair(s, i, j, mine, Verified, n)
    ensures Pair(Both(c, s, GetKey(i, false), GetKey(j, false), oldTxs), i, j, mine,
                 if c.kv then Missing else Verified, n)
  {
    hide AuthUsed, TxUsed, HandlerRuns;
  }

  lemma BothWrite(c: Config, s: State, i: nat, j: nat, oldTxs: set<string>, mine: string -> bool, n: nat)
    requires Pair(s, i, j, mine, if c.kv then Missing else Verified, n)
    ensures Pair(Both(c, s, PutKey(i), PutKey(j), oldTxs), i, j, mine, if c.kv then Keyed else Verified, n)
  {
    hide AuthUsed, TxUsed, HandlerRuns;
    var key := KeyPut(c.hash(s.requests[i].header));
    RunsAppend(s.trace, key, mine);
    RunsAppend(s.trace + [key], KeyPut(c.hash(s.requests[j].header)), mine);
  }

  lemma BothHandled(c: Config, s: State, i: nat, j: nat, oldTxs: set<string>, mine: string -> bool, n: nat)
    requires Pair(s, i, j, mine, if c.kv then Keyed else Verified, n)
    ensures Pair(Both(c, s, Handle(i, 200), Handle(j, 200), oldTxs), i, j, mine, Ready, n + 2)
  {
    hide AuthUsed, TxUsed, HandlerRuns;
    var f := HandlerDone(i, s.requests[i].header, 200);
    RunsAppend(s.trace, f, mine);
    RunsAppend(s.trace + [f], HandlerDone(j, s.requests[j].header, 200), mine);
  }

  /** Verification, check and handler of two requests, each step of one before the next of the other. */
  function Race(i: nat, j: nat): seq<Event> {
    [Verify(i, true), Verify(j, true)] +
    ([GetKey(i, false), GetKey(j, false)] + ([PutKey(i), PutKey(j)] + ([Handle(i, 200), Handle(j, 200)] + [])))
  }

  lemma TwoSteps(c: Config, s: State, d: Event, e: Event, rest: seq<Event>, oldTxs: set<string>)
    ensures Run(c, s, [d, e] + rest, oldTxs) == Run(c, Both(c, s, d, e, oldTxs), rest, oldTxs)
  {
    hide Next;
    var events := [d, e] + rest;
    assert events[1..] == [e] + rest && events[1..][1..] == rest;
  }

  /** In any state, two requests that have just arrived can run the handler twice more. */
  lemma RaceRunsTwice(c: Config, s: State, i: nat, j: nat, oldTxs: set<string>, mine: string -> bool, n: nat)
    requires Pair(s, i, j, mine, Arrived, n)
    ensures HandlerRuns(Run(c, s, Race(i, j), oldTxs).trace, mine) == n + 2
  {
    hide Run, Both, HandlerRuns;
    var handled := [Handle(i, 200), Handle(j, 200)] + [];
    var put := [PutKey(i), PutKey(j)] + handled;
    var got := [GetKey(i, false), GetKey(j, false)] + put;
    BothVerified(c, s, i, j, oldTxs, mine, n);
    TwoSteps(c, s, Verify(i, true), Verify(j, true), got, oldTxs);
    var s1 := Both(c, s, Verify(i, true), Verify(j, true), oldTxs);
    BothRead(c, s1, i, j, oldTxs, mine, n);
    TwoSteps(c, s1, GetKey(i, false), GetKey(j, false), put, oldTxs);
    var s2 := Both(c, s1, GetKey(i, false), GetKey(j, false), oldTxs);
    BothWrite(c, s2, i, j, oldTxs, mine, n);
    TwoSteps(c, s2, PutKey(i), PutKey(j), handled, oldTxs);
    var s3 := Both(c, s2, PutKey(i), PutKey(j), oldTxs);
    BothHandled(c, s3, i, j, oldTxs, mine, n);
    TwoSteps(c, s3, Handle(i, 200), Handle(j, 200), [], oldTxs);
    RunNone(c, Both(c, s3, Handle(i, 200), Handle(j, 200), oldTxs), oldTxs);
  }

  lemma RunNone(c: Config, s: State, oldTxs: set<string>)
    ensures Run(c, s, [], oldTxs) == s
  {
  }

  lemma {:induction false} RunConcat(c: Config, s: State, a: seq<Event>, b: seq<Event>, oldTxs: set<string>)
    ensures Run(c, s, a + b, oldTxs) == Run(c, Run(c, s, a, oldTxs), b, oldTxs)
    decreases |a|
  {
    hide Next;
    if a == [] {
      assert a + b == b;
    } else {
      RunConcat(c, Next(c, s, a[0], oldTxs), a[1..], b, oldTxs);
      assert (a + b)[1..] == a[1..] + b;
    }
  }

  /** The requests that have just arrived. */
  function Requests(arrivals: seq<Event>): seq<Request>
    requires forall k | 0 <= k < |arrivals| :: arrivals[k].Arrive?
  {
    seq(|arrivals|, k requires 0 <= k < |arrivals| =>
      Request(arrivals[k].header, arrivals[k].payer, arrivals[k].resource, arrivals[k].price, Arrived))
  }

  lemma OneStep(c: Config, s: State, e: Event, oldTxs: set<string>)
    ensures Run(c, s, [e], oldTxs) == Next(c, s, e, oldTxs)
  {
    hide Next;
    assert [e][1..] == [];
  }

  lemma ThreeSteps(c: Config, s: State, d: Event, e: Event, f: Event, oldTxs: set<string>)
    ensures Run(c, s, [d, e, f], oldTxs) == Next(c, Both(c, s, d, e, oldTxs), f, oldTxs)
  {
    hide Next, Run;
    TwoSteps(c, s, d, e, [f], oldTxs);
    OneStep(c, Both(c, s, d, e, oldTxs), f, oldTxs);
    assert [d, e] + [f] == [d, e, f];
  }

  lemma {:induction false} AllArrive(c: Config, log: Log, arrivals: seq<Event>, oldTxs: set<string>)
    requires forall k | 0 <= k < |arrivals| :: arrivals[k].Arrive?
    ensures Run(c, Start(log), arrivals, oldTxs) == State(Requests(arrivals), [log], [])
    ensures Arrivals(arrivals) == arrivals
  {
    hide NextOf;
    if arrivals == [] {
      assert Requests(arrivals) == [];
    } else {
      var n := |arrivals| - 1;
      AllArrive(c, log, arrivals[..n], oldTxs);
      assert arrivals == arrivals[..n] + [arrivals[n]];
      RunConcat(c, Start(log), arrivals[..n], [arrivals[n]], oldTxs);
      var s := Run(c, Start(log), arrivals[..n], oldTxs);
      OneStep(c, s, arrivals[n], oldTxs);
      assert Requests(arrivals) == Requests(arrivals[..n]) + [Requests(arrivals)[n]];
    }
  }

  lemma {:induction false} TwoCarriers(arrivals: seq<Event>, mine: string -> bool) returns (i: nat, j: nat)
    requires Carriers(arrivals, mine) >= 2
    ensures i < j < |arrivals| && arrivals[i].Arrive? && arrivals[j].Arrive?
    ensures mine(arrivals[i].header) && mine(arrivals[j].header)
  {
    var n := |arrivals| - 1;
    if arrivals[n].Arrive? && mine(arrivals[n].header) {
      i := OneCarrier(arrivals[..n], mine);
      j := n;
    } else {
      i, j := TwoCarriers(arrivals[..n], mine);
    }
  }

  lemma {:induction false} OneCarrier(arrivals: seq<Event>, mine: string -> bool) returns (i: nat)
    requires Carriers(arrivals, mine) >= 1
    ensures i < |arrivals| && arrivals[i].Arrive? && mine(arrivals[i].header)
  {
    var n := |arrivals| - 1;
    if arrivals[n].Arrive? && mine(arrivals[n].header) {
      i := n;
    } else {
      i := OneCarrier(arrivals[..n], mine);
    }
  }

  lemma {:induction false} NoArrivals(events: seq<Event>, more: seq<Event>)
    requires forall k | 0 <= k < |more| :: !more[k].Arrive?
    ensures Arrivals(events + more) == Arrivals(events)
    decreases |more|
  {
    if more == [] {
      assert events + more == events;
    } else {
      var n := |more| - 1;
      NoArrivals(events, more[..n]);
      assert (events + more)[..|events| + n] == events + more[..n];
    }
  }

  /**
   The exact guarantee of the replay check: whatever the interleaving, the handler runs at
   most once for a header, or for an authorization, if and only if at most one of the arriving
   requests carries it.
   */
  lemma OnceIffOneCarrier(c: Config, log: Log, arrivals: seq<Event>, oldTxs: set<string>, mine: string -> bool)
    requires forall k | 0 <= k < |arrivals| :: arrivals[k].Arrive?
    ensures (forall events | Arrivals(events) == arrivals ::
               HandlerRuns(Run(c, Start(log), events, oldTxs).trace, mine) <= 1)
       <==> Carriers(arrivals, mine) <= 1
  {
    hide Run, Arrivals, Carriers, Race, HandlerRuns, Requests;
    forall events | Arrivals(events) == arrivals
      ensures HandlerRuns(Run(c, Start(log), events, oldTxs).trace, mine) <= Carriers(arrivals, mine)
    {
      RunsPerRequest(c, log, events, oldTxs, mine);
    }
    if Carriers(arrivals, mine) >= 2 {
      var i, j := TwoCarriers(arrivals, mine);
      TwoRunsFor(c, log, arrivals, i, j, oldTxs, mine);
    }
  }

  lemma TwoRunsFor(c: Config, log: Log, arrivals: seq<Event>, i: nat, j: nat, oldTxs: set<string>, mine: string -> bool)
    requires forall k | 0 <= k < |arrivals| :: arrivals[k].Arrive?
    requires i < j < |arrivals| && mine(arrivals[i].header) && mine(arrivals[j].header)
    ensures Arrivals(arrivals + Race(i, j)) == arrivals
    ensures HandlerRuns(Run(c, Start(log), arrivals + Race(i, j), oldTxs).trace, mine) == 2
  {
    hide Run, Arrivals;
    AllArrive(c, log, arrivals, oldTxs);
    NoArrivals(arrivals, Race(i, j));
    RunConcat(c, Start(log), arrivals, Race(i, j), oldTxs);
    RaceRunsTwice(c, State(Requests(arrivals), [log], []), i, j, oldTxs, mine, 0);
  }

  // ----------------------------------------------------- schedules of undisturbed checks

  /** Every key is read fresh, and a check that does not find it writes it at once. */
  predicate Undisturbed(c: Config, s: State, events: seq<Event>, oldTxs: set<string>)
    decreases |events|
  {
    events != [] ==>
      && (events[0].GetKey? && events[0].request < |s.requests| ==>
            && (events[0].found <==> KeyPut(c.hash(s.requests[events[0].request].header)) in s.trace)
            && (!events[0].found ==> |events| > 1 && events[1] == PutKey(events[0].request)))
      && Undisturbed(c, Next(c, s, events[0], oldTxs), events[1..], oldTxs)
  }

  predicate AtHandler(p: Phase) { p.Keyed? }

  /** Requests with such headers all have this replay key. */
  predicate KeyedBy(c: Config, requests: seq<Request>, mine: string -> bool, key: string) {
    forall i | 0 <= i < |requests| :: mine(requests[i].header) ==> c.hash(requests[i].header) == key
  }

  /** At most one request is at the handler or has been through it, and then the key is written. */
  ghost predicate OnceInv(c: Config, s: State, mine: string -> bool, key: string) {
    && Count(s.requests, mine, AtHandler) + HandlerRuns(s.trace, mine) <= 1
    && (Count(s.requests, mine, AtHandler) + HandlerRuns(s.trace, mine) > 0 ==> KeyPut(key) in s.trace)
    && (forall i | 0 <= i < |s.requests| :: !s.requests[i].phase.Missing?)
    && KeyedBy(c, s.requests, mine, key)
  }

  /** A fresh read of the key, and its write when there is none. */
  function Check(c: Config, s: State, i: nat, oldTxs: set<string>): State
    requires i < |s.requests|
  {
    var found := KeyPut(c.hash(s.requests[i].header)) in s.trace;
    var t := Next(c, s, GetKey(i, found), oldTxs);
    if found then t else Next(c, t, PutKey(i), oldTxs)
  }

  lemma CheckOnce(c: Config, s: State, i: nat, oldTxs: set<string>, mine: string -> bool, key: string)
    requires c.kv && OnceInv(c, s, mine, key) && i < |s.requests|
    ensures OnceInv(c, Check(c, s, i, oldTxs), mine, key)
  {
    hide AuthUsed, TxUsed, Count, HandlerRuns;
    if s.requests[i].phase.Verified? {
      if KeyPut(c.hash(s.requests[i].header)) in s.trace {
        RefusedOnce(c, s, i, mine, key);
      } else {
        PassedOnce(c, s, i, mine, key);
        CheckPasses(c, s, i, oldTxs);
      }
    } else {
      assert !s.requests[i].phase.Missing?;
    }
  }

  lemma RefusedOnce(c: Config, s: State, i: nat, mine: string -> bool, key: string)
    requires OnceInv(c, s, mine, key) && i < |s.requests| && s.requests[i].phase.Verified?
    ensures OnceInv(c, Note(InPhase(s, i, Closed), HandlerDone(i, s.requests[i].header, 402)), mine, key)
  {
    hide Count, HandlerRuns;
    var r := s.requests[i];
    CountUpdate(s.requests, i, r.(phase := Closed), mine, AtHandler);
    RunsAppend(s.trace, HandlerDone(i, r.header, 402), mine);
  }

  lemma PassedOnce(c: Config, s: State, i: nat, mine: string -> bool, key: string)
    requires OnceInv(c, s, mine, key) && i < |s.requests| && s.requests[i].phase.Verified?
    requires KeyPut(c.hash(s.requests[i].header)) !in s.trace
    ensures OnceInv(c, Note(InPhase(s, i, Keyed), KeyPut(c.hash(s.requests[i].header))), mine, key)
  {
    hide Count, HandlerRuns;
    var r := s.requests[i];
    var put := KeyPut(c.hash(r.header));
    CountUpdate(s.requests, i, r.(phase := Keyed), mine, AtHandler);
    RunsAppend(s.trace, put, mine);
    assert put in s.trace + [put];
  }

  lemma CheckPasses(c: Config, s: State, i: nat, oldTxs: set<string>)
    requires c.kv && i < |s.requests| && s.requests[i].phase.Verified?
    requires KeyPut(c.hash(s.requests[i].header)) !in s.trace
    ensures Check(c, s, i, oldTxs) == Note(InPhase(s, i, Keyed), KeyPut(c.hash(s.requests[i].header)))
  {
    hide AuthUsed, TxUsed;
    var r := s.requests[i];
    var t := InPhase(s, i, Missing);
    assert t.requests[i := r.(phase := Keyed)] == s.requests[i := r.(phase := Keyed)];
  }

  lemma OtherOnce(c: Config, s: State, e: Event, oldTxs: set<string>, mine: string -> bool, key: string)
    requires c.kv && OnceInv(c, s, mine, key) && (e.GetKey? ==> e.request >= |s.requests|)
    requires e.Arrive? && mine(e.header) ==> c.hash(e.header) == key
    ensures OnceInv(c, Next(c, s, e, oldTxs), mine, key)
  {
    hide NextOf;
    var t := Next(c, s, e, oldTxs);
    if e.Arrive? {
      assert t.requests[..|s.requests|] == s.requests;
    } else if e.request < |s.requests| {
      RequestOnce(c, s, e, e.request, oldTxs, mine, key);
    }
  }

  lemma RequestOnce(c: Config, s: State, e: Event, i: nat, oldTxs: set<string>, mine: string -> bool, key: string)
    requires c.kv && OnceInv(c, s, mine, key) && i < |s.requests| && !e.GetKey?
    ensures OnceInv(c, NextOf(c, s, e, i, s.requests[i], oldTxs), mine, key)
  {
    hide AuthUsed, TxUsed, Count, HandlerRuns;
    var r := s.requests[i];
    var t := NextOf(c, s, e, i, r, oldTxs);
    assert !r.phase.Missing?;
    if t != s {
      CountUpdate(s.requests, i, t.requests[i], mine, AtHandler);
      assert t.requests == s.requests[i := t.requests[i]];
      if t.trace != s.trace {
        var f := t.trace[|s.trace|];
        assert t.trace == s.trace + [f];
        RunsAppend(s.trace, f, mine);
      }
    }
  }

  /** Whatever arrives with such a header has this replay key. */
  predicate ArriveKeyed(c: Config, events: seq<Event>, mine: string -> bool, key: string) {
    forall k | 0 <= k < |events| :: events[k].Arrive? && mine(events[k].header) ==> c.hash(events[k].header) == key
  }

  lemma {:induction false} UndisturbedKeeps(c: Config, s: State, events: seq<Event>, oldTxs: set<string>,
                                            mine: string -> bool, key: string)
    requires c.kv && OnceInv(c, s, mine, key) && Undisturbed(c, s, events, oldTxs)
    requires ArriveKeyed(c, events, mine, key)
    ensures OnceInv(c, Run(c, s, events, oldTxs), mine, key)
    decreases |events|
  {
    hide OnceInv, Next;
    if events != [] {
      var e := events[0];
      if e.GetKey? && e.request < |s.requests| {
        CheckOnce(c, s, e.request, oldTxs, mine, key);
        if e.found {
          UndisturbedKeeps(c, Next(c, s, e, oldTxs), events[1..], oldTxs, mine, key);
        } else {
          UndisturbedKeeps(c, Next(c, Next(c, s, e, oldTxs), events[1], oldTxs), events[1..][1..], oldTxs, mine, key);
        }
      } else {
        OtherOnce(c, s, e, oldTxs, mine, key);
        UndisturbedKeeps(c, Next(c, s, e, oldTxs), events[1..], oldTxs, mine, key);
      }
    }
  }

  /** If checks are fresh and undisturbed, headers with one replay key run the handler at most once. */
  lemma OneKeyRunsOnce(c: Config, log: Log, events: seq<Event>, oldTxs: set<string>, mine: string -> bool, key: string)
    requires c.kv && Undisturbed(c, Start(log), events, oldTxs) && ArriveKeyed(c, events, mine, key)
    ensures HandlerRuns(Run(c, Start(log), events, oldTxs).trace, mine) <= 1
  {
    hide Run, Undisturbed, ArriveKeyed;
    UndisturbedKeeps(c, Start(log), events, oldTxs, mine, key);
  }

  /** In a schedule whose checks are fresh and undisturbed, a proof runs the handler at most once. */
  lemma UndisturbedRunsOnce(c: Config, log: Log, events: seq<Event>, oldTxs: set<string>, header: string)
    requires c.kv && Undisturbed(c, Start(log), events, oldTxs)
    ensures HandlerRuns(Run(c, Start(log), events, oldTxs).trace, Only(header)) <= 1
  {
    hide Run, Undisturbed;
    OneKeyRunsOnce(c, log, events, oldTxs, Only(header), c.hash(header));
  }

  // ------------------------------------------------------- one request after the other

  /** Verification, check and handler of one request, with nothing in between. */
  function Turn(i: nat): seq<Event> { [Verify(i, true), GetKey(i, false), PutKey(i), Handle(i, 200)] }

  /** The state after such a turn. */
  function AfterTurn(c: Config, s: State, i: nat): State
    requires i < |s.requests|
  {
    var header := s.requests[i].header;
    InPhase(s, i, Ready).(trace := s.trace + [KeyPut(c.hash(header)), HandlerDone(i, header, 200)])
  }

  lemma FourSteps(c: Config, s: State, d: Event, e: Event, f: Event, g: Event, oldTxs: set<string>)
    ensures Run(c, s, [d, e, f, g], oldTxs) == Both(c, Both(c, s, d, e, oldTxs), f, g, oldTxs)
  {
    hide Next;
    TwoSteps(c, s, d, e, [f, g], oldTxs);
    TwoSteps(c, Both(c, s, d, e, oldTxs), f, g, [], oldTxs);
    assert [d, e] + [f, g] == [d, e, f, g] && [f, g] + [] == [f, g];
  }

  lemma TurnIs(c: Config, s: State, i: nat, oldTxs: set<string>)
    requires c.kv && i < |s.requests| && s.requests[i].phase == Arrived
    ensures Run(c, s, Turn(i), oldTxs) == AfterTurn(c, s, i)
  {
    hide AuthUsed, TxUsed, Run;
    FourSteps(c, s, Verify(i, true), GetKey(i, false), PutKey(i), Handle(i, 200), oldTxs);
    var t := Both(c, s, Verify(i, true), GetKey(i, false), oldTxs);
    assert t == InPhase(s, i, Missing);
    assert Both(c, t, PutKey(i), Handle(i, 200), oldTxs).requests == InPhase(s, i, Ready).requests;
  }

  lemma TurnUndisturbed(c: Config, s: State, i: nat, oldTxs: set<string>)
    requires c.kv && i < |s.requests| && s.requests[i].phase == Arrived
    requires KeyPut(c.hash(s.requests[i].header)) !in s.trace
    ensures Undisturbed(c, s, Turn(i), oldTxs)
  {
    hide AuthUsed, TxUsed;
    var verified := Next(c, s, Verify(i, true), oldTxs);
    var missing := Next(c, verified, GetKey(i, false), oldTxs);
    assert Turn(i)[1..] == [GetKey(i, false), PutKey(i), Handle(i, 200)];
    assert Turn(i)[1..][1..] == [PutKey(i), Handle(i, 200)];
    assert [PutKey(i), Handle(i, 200)][1..] == [Handle(i, 200)] && [Handle(i, 200)][1..] == [];
    var keyed := Next(c, missing, PutKey(i), oldTxs);
    NothingDisturbed(c, Next(c, keyed, Handle(i, 200), oldTxs), oldTxs);
    assert Undisturbed(c, keyed, [Handle(i, 200)], oldTxs);
    assert Undisturbed(c, missing, [PutKey(i), Handle(i, 200)], oldTxs);
  }

  lemma NothingDisturbed(c: Config, s: State, oldTxs: set<string>)
    ensures Undisturbed(c, s, [], oldTxs)
  {
  }

  lemma {:induction false} UndisturbedConcat(c: Config, s: State, a: seq<Event>, b: seq<Event>, oldTxs: set<string>)
    requires Undisturbed(c, s, a, oldTxs) && Undisturbed(c, Run(c, s, a, oldTxs), b, oldTxs)
    ensures Undisturbed(c, s, a + b, oldTxs)
    decreases |a|
  {
    hide Next;
    if a == [] {
      assert a + b == b;
    } else {
      UndisturbedConcat(c, Next(c, s, a[0], oldTxs), a[1..], b, oldTxs);
      assert (a + b)[1..] == a[1..] + b;
    }
  }

  lemma {:induction false} ArrivalsUndisturbed(c: Config, s: State, arrivals: seq<Event>, oldTxs: set<string>)
    requires forall k | 0 <= k < |arrivals| :: arrivals[k].Arrive?
    ensures Undisturbed(c, s, arrivals, oldTxs)
    decreases |arrivals|
  {
    hide Next;
    if arrivals != [] { ArrivalsUndisturbed(c, Next(c, s, arrivals[0], oldTxs), arrivals[1..], oldTxs); }
  }

  /** Two requests with different keys, one after the other: both run the handler. */
  lemma TurnsRunTwice(c: Config, s: State, i: nat, j: nat, oldTxs: set<string>, mine: string -> bool)
    requires c.kv && i < |s.requests| && j < |s.requests| && i != j
    requires s.requests[i].phase == Arrived && s.requests[j].phase == Arrived
    requires mine(s.requests[i].header) && mine(s.requests[j].header)
    requires c.hash(s.requests[i].header) != c.hash(s.requests[j].header) && s.trace == []
    ensures Undisturbed(c, s, Turn(i) + Turn(j), oldTxs)
    ensures HandlerRuns(Run(c, s, Turn(i) + Turn(j), oldTxs).trace, mine) == 2
  {
    hide Run, Undisturbed, HandlerRuns, Turn;
    var t := AfterTurn(c, s, i);
    TurnIs(c, s, i, oldTxs);
    TurnIs(c, t, j, oldTxs);
    RunConcat(c, s, Turn(i), Turn(j), oldTxs);
    TurnUndisturbed(c, s, i, oldTxs);
    TurnUndisturbed(c, t, j, oldTxs);
    UndisturbedConcat(c, s, Turn(i), Turn(j), oldTxs);
    TurnRuns(c, s, i, mine);
    TurnRuns(c, t, j, mine);
    assert HandlerRuns([], mine) == 0 by { NoRuns(mine); }
  }

  lemma TurnRuns(c: Config, s: State, i: nat, mine: string -> bool)
    requires i < |s.requests| && mine(s.requests[i].header)
    ensures HandlerRuns(AfterTurn(c, s, i).trace, mine) == HandlerRuns(s.trace, mine) + 1
  {
    hide HandlerRuns;
    var header := s.requests[i].header;
    var put := KeyPut(c.hash(header));
    RunsAppend(s.trace, put, mine);
    RunsAppend(s.trace + [put], HandlerDone(i, header, 200), mine);
    assert AfterTurn(c, s, i).trace == s.trace + [put] + [HandlerDone(i, header, 200)];
  }

  lemma NoRuns(mine: string -> bool)
    ensures HandlerRuns([], mine) == 0
  {
  }

  /** All arriving requests with such headers have one replay key. */
  predicate OneKey(c: Config, arrivals: seq<Event>, mine: string -> bool) {
    forall i, j | 0 <= i < j < |arrivals| && arrivals[i].Arrive? && arrivals[j].Arrive? ::
      mine(arrivals[i].header) && mine(arrivals[j].header) ==> c.hash(arrivals[i].header) == c.hash(arrivals[j].header)
  }

  /**
   The exact guarantee of undisturbed checks: over every such schedule of some arriving
   requests, the handler runs at most once for an authorization (or for any other choice of
   headers), if and only if the requests that carry it have one replay key.
   */
  lemma UndisturbedOnceIffOneKey(c: Config, log: Log, arrivals: seq<Event>, oldTxs: set<string>, mine: string -> bool)
    requires c.kv && forall k | 0 <= k < |arrivals| :: arrivals[k].Arrive?
    ensures (forall events | Arrivals(events) == arrivals && Undisturbed(c, Start(log), events, oldTxs) ::
               HandlerRuns(Run(c, Start(log), events, oldTxs).trace, mine) <= 1)
       <==> OneKey(c, arrivals, mine)
  {
    hide Run, Undisturbed, Arrivals, HandlerRuns;
    if OneKey(c, arrivals, mine) {
      var key := KeyOf(c, arrivals, mine);
      forall events | Arrivals(events) == arrivals && Undisturbed(c, Start(log), events, oldTxs)
        ensures HandlerRuns(Run(c, Start(log), events, oldTxs).trace, mine) <= 1
      {
        ArrivalsKeyed(c, events, mine, key);
        OneKeyRunsOnce(c, log, events, oldTxs, mine, key);
      }
    } else {
      var i, j :| 0 <= i < j < |arrivals| && mine(arrivals[i].header) && mine(arrivals[j].header)
        && c.hash(arrivals[i].header) != c.hash(arrivals[j].header);
      TwoTurnsFor(c, log, arrivals, i, j, oldTxs, mine);
    }
  }

  lemma KeyOf(c: Config, arrivals: seq<Event>, mine: string -> bool) returns (key: string)
    requires OneKey(c, arrivals, mine) && forall k | 0 <= k < |arrivals| :: arrivals[k].Arrive?
    ensures ArriveKeyed(c, arrivals, mine, key)
  {
    if k :| 0 <= k < |arrivals| && mine(arrivals[k].header) {
      key := c.hash(arrivals[k].header);
      forall i | 0 <= i < |arrivals| && mine(arrivals[i].header) ensures c.hash(arrivals[i].header) == key {
        if i < k { assert mine(arrivals[i].header) && mine(arrivals[k].header); }
      }
    } else {
      key := "";
    }
  }

  /** What arrives in a schedule is in its arrivals. */
  lemma {:induction false} ArrivalsKeyed(c: Config, events: seq<Event>, mine: string -> bool, key: string)
    requires ArriveKeyed(c, Arrivals(events), mine, key)
    ensures ArriveKeyed(c, events, mine, key)
  {
    if events != [] {
      var n := |events| - 1;
      var before := Arrivals(events[..n]);
      assert forall k | 0 <= k < |before| :: Arrivals(events)[k] == before[k];
      ArrivalsKeyed(c, events[..n], mine, key);
      if events[n].Arrive? { assert Arrivals(events)[|before|] == events[n]; }
      assert forall k | 0 <= k < n :: events[..n][k] == events[k];
    }
  }

  lemma TwoTurnsFor(c: Config, log: Log, arrivals: seq<Event>, i: nat, j: nat, oldTxs: set<string>,
                    mine: string -> bool)
    requires c.kv && forall k | 0 <= k < |arrivals| :: arrivals[k].Arrive?
    requires i < j < |arrivals| && mine(arrivals[i].header) && mine(arrivals[j].header)
    requires c.hash(arrivals[i].header) != c.hash(arrivals[j].header)
    ensures var events := arrivals + (Turn(i) + Turn(j));
      && Arrivals(events) == arrivals && Undisturbed(c, Start(log), events, oldTxs)
      && HandlerRuns(Run(c, Start(log), events, oldTxs).trace, mine) == 2
  {
    hide Run, Undisturbed, Arrivals, HandlerRuns;
    var turns := Turn(i) + Turn(j);
    AllArrive(c, log, arrivals, oldTxs);
    NoArrivals(arrivals, turns);
    ArrivalsUndisturbed(c, Start(log), arrivals, oldTxs);
    TurnsRunTwice(c, State(Requests(arrivals), [log], []), i, j, oldTxs, mine);
    RunConcat(c, Start(log), arrivals, turns, oldTxs);
    UndisturbedConcat(c, Start(log), arrivals, turns, oldTxs);
  }

  /**
   The input that undisturbed checks do not refuse: two headers of one authorization with
   different keys, presented one after the other. The handler runs for both.
   */
  lemma TwoHeadersRunTwice(c: Config, log: Log, a: Event, b: Event, oldTxs: set<string>)
    requires c.kv && a.Arrive? && b.Arrive?
    requires c.authOf(a.header) == c.authOf(b.header) && c.hash(a.header) != c.hash(b.header)
    ensures var events := [a, b] + (Turn(0) + Turn(1));
      && Undisturbed(c, Start(log), events, oldTxs)
      && HandlerRuns(Run(c, Start(log), events, oldTxs).trace, OfAuth(c, c.authOf(a.header))) == 2
  {
    hide Run, Undisturbed, HandlerRuns, Turn;
    TwoTurnsFor(c, log, [a, b], 0, 1, oldTxs, OfAuth(c, c.authOf(a.header)));
  }
}
