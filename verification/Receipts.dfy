/**
 The receipt log: what every interleaving of `recordSettlement` calls keeps, and what it
 holds when they follow one another.
 */
module Receipts {
  import opened Options
  import opened PaidRoute

  // -------------------------------------------------------------------- receipt log

  ghost predicate DistinctTxs(log: Log) {
    forall i, j | 0 <= i < j < |log| :: log[i].txHash != log[j].txHash
  }

  ghost predicate Holds(log: Log, tx: string) {
    exists k :: 0 <= k < |log| && log[k].txHash == tx
  }

  /** At most 100 receipts, no transaction twice, and each one settled, now or before. */
  ghost predicate GoodLog(log: Log, trace: seq<Fact>, oldTxs: set<string>) {
    && |log| <= LOG_MAX && DistinctTxs(log)
    && forall k | 0 <= k < |log| :: log[k].txHash in oldTxs || TxUsed(trace, log[k].txHash)
  }

  /** The receipt of this transaction is still to be written. */
  predicate Unwritten(p: Phase) { TxOf(p).Some? && !p.Logged? && !p.Delivered? && !p.Stray? }

  ghost predicate LogsGood(s: State, oldTxs: set<string>) {
    forall v | 0 <= v < |s.versions| :: GoodLog(s.versions[v], s.trace, oldTxs)
  }

  /** A transaction whose receipt is unwritten is in no version of the log. */
  ghost predicate Pending(s: State, i: nat)
    requires i < |s.requests|
  {
    var p := s.requests[i].phase;
    Unwritten(p) ==>
      && (forall v | 0 <= v < |s.versions| :: !Holds(s.versions[v], TxOf(p).value))
      && (p.Logging? ==> exists v | 0 <= v < |s.versions| :: s.versions[v] == p.base)
  }

  /** Requests with a transaction have their own, and it was recorded. */
  ghost predicate OwnTx(s: State, i: nat, oldTxs: set<string>)
    requires i < |s.requests|
  {
    var tx := TxOf(s.requests[i].phase);
    tx.Some? ==>
      && TxUsed(s.trace, tx.value) && tx.value !in oldTxs
      && forall j | 0 <= j < |s.requests| && j != i :: TxOf(s.requests[j].phase) != tx
  }

  ghost predicate LogInv(s: State, oldTxs: set<string>) {
    && LogsGood(s, oldTxs)
    && (forall i | 0 <= i < |s.requests| :: Pending(s, i))
    && (forall i | 0 <= i < |s.requests| :: OwnTx(s, i, oldTxs))
  }

  lemma LogsStay(s: State, t: State, oldTxs: set<string>)
    requires LogsGood(s, oldTxs) && t.versions == s.versions
    requires t.trace == s.trace || exists f :: t.trace == s.trace + [f]
    ensures LogsGood(t, oldTxs)
  {
    forall v | 0 <= v < |t.versions| ensures GoodLog(t.versions[v], t.trace, oldTxs) {
      assert GoodLog(s.versions[v], s.trace, oldTxs);
      forall k | 0 <= k < |t.versions[v]|
        ensures t.versions[v][k].txHash in oldTxs || TxUsed(t.trace, t.versions[v][k].txHash)
      {
        if t.trace != s.trace {
          var f :| t.trace == s.trace + [f];
        }
      }
    }
  }

  /** A move that keeps the transaction, or gives up writing its receipt. */
  lemma MoveKeeps(s: State, t: State, i: nat, oldTxs: set<string>)
    requires LogInv(s, oldTxs) && i < |s.requests| && |t.requests| == |s.requests|
    requires t.requests == s.requests[i := t.requests[i]] && t.versions == s.versions
    requires t.trace == s.trace || exists f :: t.trace == s.trace + [f]
    requires TxOf(t.requests[i].phase) == TxOf(s.requests[i].phase)
    requires Unwritten(t.requests[i].phase) ==> Unwritten(s.requests[i].phase)
    requires t.requests[i].phase.Logging? ==>
      exists v | 0 <= v < |s.versions| :: s.versions[v] == t.requests[i].phase.base
    ensures LogInv(t, oldTxs)
  {
    hide LogsGood, Holds;
    LogsStay(s, t, oldTxs);
    forall j | 0 <= j < |t.requests| ensures Pending(t, j) && OwnTx(t, j, oldTxs) {
      assert Pending(s, j) && OwnTx(s, j, oldTxs);
      forall k | 0 <= k < |t.requests| ensures TxOf(t.requests[k].phase) == TxOf(s.requests[k].phase) {
        assert k != i ==> t.requests[k] == s.requests[k];
      }
    }
  }

  /** A new transaction is mined. */
  lemma MineKeeps(s: State, i: nat, tx: string, phase: Phase, oldTxs: set<string>)
    requires LogInv(s, oldTxs) && i < |s.requests| && TxOf(s.requests[i].phase).None?
    requires (phase == Mined(tx) || phase == Stray(tx)) && !TxUsed(s.trace, tx) && tx !in oldTxs
    ensures LogInv(Note(InPhase(s, i, phase), Settled(i, s.requests[i].header, tx)), oldTxs)
  {
    hide LogsGood, Holds;
    var f := Settled(i, s.requests[i].header, tx);
    var t := Note(InPhase(s, i, phase), f);
    assert t.trace == s.trace + [f];
    LogsStay(s, t, oldTxs);
    forall v | 0 <= v < |s.versions| ensures !Holds(s.versions[v], tx) {
      NewTxInNoLog(s, v, tx, oldTxs);
    }
    forall j | 0 <= j < |t.requests| ensures Pending(t, j) && OwnTx(t, j, oldTxs) {
      assert Pending(s, j) && OwnTx(s, j, oldTxs);
      forall k | 0 <= k < |t.requests| && k != j
        ensures TxOf(t.requests[k].phase).Some? ==> TxOf(t.requests[k].phase) != TxOf(t.requests[j].phase)
      {
        assert OwnTx(s, k, oldTxs);
      }
    }
  }

  lemma NewTxInNoLog(s: State, v: nat, tx: string, oldTxs: set<string>)
    requires LogsGood(s, oldTxs) && v < |s.versions| && !TxUsed(s.trace, tx) && tx !in oldTxs
    ensures !Holds(s.versions[v], tx)
  {
    assert GoodLog(s.versions[v], s.trace, oldTxs);
  }

  /** Putting a receipt in front of an older log that lacks it. */
  lemma PushGood(receipt: Receipt, log: Log, trace: seq<Fact>, oldTxs: set<string>)
    requires GoodLog(log, trace, oldTxs) && !Holds(log, receipt.txHash) && TxUsed(trace, receipt.txHash)
    ensures GoodLog(Push(receipt, log), trace, oldTxs)
    ensures forall tx :: Holds(Push(receipt, log), tx) ==> tx == receipt.txHash || Holds(log, tx)
  {
    hide TxUsed;
    var p := Push(receipt, log);
    forall k | 0 <= k < |p| ensures (k == 0 && p[k] == receipt) || (k > 0 && p[k] == log[k - 1]) {
    }
    forall tx | Holds(p, tx) ensures tx == receipt.txHash || Holds(log, tx) {
      var k :| 0 <= k < |p| && p[k].txHash == tx;
      if k > 0 { assert log[k - 1].txHash == tx; }
    }
    forall i, j | 0 <= i < j < |p| ensures p[i].txHash != p[j].txHash {
      assert p[j] == log[j - 1];
    }
  }

  /** A receipt is written over whatever older version was read. */
  lemma WriteKeeps(s: State, i: nat, oldTxs: set<string>)
    requires LogInv(s, oldTxs) && i < |s.requests| && s.requests[i].phase.Logging?
    ensures var r := s.requests[i];
      var pushed := Push(ReceiptFor(r, r.phase.tx, r.phase.now), r.phase.base);
      LogInv(InPhase(s, i, Logged(r.phase.tx)).(versions := s.versions + [pushed]), oldTxs)
  {
    hide Holds, GoodLog;
    var r := s.requests[i];
    var receipt := ReceiptFor(r, r.phase.tx, r.phase.now);
    var t := InPhase(s, i, Logged(r.phase.tx)).(versions := s.versions + [Push(receipt, r.phase.base)]);
    assert Pending(s, i) && OwnTx(s, i, oldTxs);
    var v :| 0 <= v < |s.versions| && s.versions[v] == r.phase.base;
    PushGood(receipt, r.phase.base, s.trace, oldTxs);
    forall j | 0 <= j < |t.requests| ensures Pending(t, j) && OwnTx(t, j, oldTxs) {
      assert Pending(s, j) && OwnTx(s, j, oldTxs);
      forall k | 0 <= k < |t.requests| ensures TxOf(t.requests[k].phase) == TxOf(s.requests[k].phase) {
        assert k != i ==> t.requests[k] == s.requests[k];
      }
      if j != i && Unwritten(t.requests[j].phase) { OtherPending(s, t, i, j); }
    }
  }

  lemma OtherPending(s: State, t: State, i: nat, j: nat)
    requires i < |s.requests| && j < |s.requests| && |t.requests| == |s.requests| && t.requests[j] == s.requests[j]
    requires Pending(s, j) && Unwritten(s.requests[j].phase) && |t.versions| == |s.versions| + 1
    requires forall v | 0 <= v < |s.versions| :: t.versions[v] == s.versions[v]
    requires s.requests[i].phase.Logging? && s.requests[i].phase.tx != TxOf(s.requests[j].phase).value
    requires exists v | 0 <= v < |s.versions| :: s.versions[v] == s.requests[i].phase.base
    requires forall tx :: Holds(t.versions[|s.versions|], tx) ==>
      tx == s.requests[i].phase.tx || Holds(s.requests[i].phase.base, tx)
    ensures Pending(t, j)
  {
    hide Holds;
    var p := s.requests[j].phase;
    forall v | 0 <= v < |t.versions| ensures !Holds(t.versions[v], TxOf(p).value) {
      if v < |s.versions| { assert t.versions[v] == s.versions[v]; }
    }
    if p.Logging? {
      var v :| 0 <= v < |s.versions| && s.versions[v] == p.base;
      assert t.versions[v] == p.base;
    }
  }

  lemma ArriveKeeps(s: State, r: Request, oldTxs: set<string>)
    requires LogInv(s, oldTxs) && r.phase == Arrived
    ensures LogInv(s.(requests := s.requests + [r]), oldTxs)
  {
    hide GoodLog, Holds, TxUsed;
    var t := s.(requests := s.requests + [r]);
    forall j | 0 <= j < |t.requests| ensures Pending(t, j) && OwnTx(t, j, oldTxs) {
      if j < |s.requests| {
        assert Pending(s, j) && OwnTx(s, j, oldTxs);
        assert t.requests[j] == s.requests[j];
      }
    }
  }

  lemma StepKeeps(c: Config, s: State, e: Event, oldTxs: set<string>)
    requires LogInv(s, oldTxs)
    ensures LogInv(Next(c, s, e, oldTxs), oldTxs)
  {
    hide LogInv;
    if e.Arrive? {
      ArriveKeeps(s, Request(e.header, e.payer, e.resource, e.price, Arrived), oldTxs);
    } else if e.request < |s.requests| {
      RequestStepKeeps(c, s, e, e.request, oldTxs);
    }
  }

  lemma RequestStepKeeps(c: Config, s: State, e: Event, i: nat, oldTxs: set<string>)
    requires LogInv(s, oldTxs) && i < |s.requests|
    ensures LogInv(NextOf(c, s, e, i, s.requests[i], oldTxs), oldTxs)
  {
    hide LogInv, AuthUsed, TxUsed;
    var r := s.requests[i];
    var t := NextOf(c, s, e, i, r, oldTxs);
    match (e, r.phase)
    case (Mine(_, tx), Submitted) => if t != s { MineKeeps(s, i, tx, Mined(tx), oldTxs); }
    case (Mine(_, tx), Abandoned) => if t != s { MineKeeps(s, i, tx, Stray(tx), oldTxs); }
    case (WriteLog(_), Logging(_, _, _)) => WriteKeeps(s, i, oldTxs);
    case _ => if t != s { MoveKeeps(s, t, i, oldTxs); }
  }

  lemma {:induction false} RunKeeps(c: Config, s: State, events: seq<Event>, oldTxs: set<string>)
    requires LogInv(s, oldTxs)
    ensures LogInv(Run(c, s, events, oldTxs), oldTxs)
    decreases |events|
  {
    hide LogInv, Next;
    if events != [] {
      StepKeeps(c, s, events[0], oldTxs);
      RunKeeps(c, Next(c, s, events[0], oldTxs), events[1..], oldTxs);
    }
  }

  /**
   Every value ever stored in the receipt log, in every interleaving: at most 100 receipts,
   no transaction twice, each from a settlement. (None is invented; `LostReceipts`
   says when one is lost.)
   */
  lemma EveryVersionGood(c: Config, log: Log, events: seq<Event>, oldTxs: set<string>, v: nat)
    requires |log| <= LOG_MAX && DistinctTxs(log) && forall k | 0 <= k < |log| :: log[k].txHash in oldTxs
    ensures var s := Run(c, Start(log), events, oldTxs);
      v < |s.versions| ==> GoodLog(s.versions[v], s.trace, oldTxs)
  {
    hide Run;
    assert LogsGood(Start(log), oldTxs);
    RunKeeps(c, Start(log), events, oldTxs);
  }

  // ---------------------------------------------------------------- serial execution

  /** One receipt after another is put in front. */
  function PushAll(log: Log, receipts: seq<Receipt>): Log
    decreases |receipts|
  {
    if receipts == [] then log else PushAll(Push(receipts[0], log), receipts[1..])
  }

  function NewestFirst(receipts: seq<Receipt>): seq<Receipt> {
    if receipts == [] then [] else NewestFirst(receipts[1..]) + [receipts[0]]
  }

  function Newest(log: seq<Receipt>): Log { if |log| > LOG_MAX then log[..LOG_MAX] else log }

  lemma {:induction false} PushAllIsNewest(log: Log, receipts: seq<Receipt>)
    requires |log| <= LOG_MAX
    ensures PushAll(log, receipts) == Newest(NewestFirst(receipts) + log)
    decreases |receipts|
  {
    if receipts == [] {
      assert NewestFirst(receipts) + log == log;
    } else {
      var rest := NewestFirst(receipts[1..]);
      PushAllIsNewest(Push(receipts[0], log), receipts[1..]);
      assert rest + [receipts[0]] + log == rest + ([receipts[0]] + log);
    }
  }

  /** One `recordSettlement` after another, whatever the facilitator answered. */
  function RecordAll(log: Log, calls: seq<Call>): Log
    decreases |calls|
  {
    if calls == [] then log else RecordAll(Recorded(log, calls[0]), calls[1..])
  }

  /** The receipts of the calls that settled, in order. */
  function Successes(calls: seq<Call>): seq<Receipt> {
    if calls == [] then []
    else (if Succeeded(calls[0].decoded) then [ReceiptOf(calls[0])] else []) + Successes(calls[1..])
  }

  lemma PushFirst(log: Log, receipt: Receipt, rest: seq<Receipt>)
    ensures PushAll(log, [receipt] + rest) == PushAll(Push(receipt, log), rest)
  {
    assert ([receipt] + rest)[1..] == rest;
  }

  lemma {:induction false} OnlySuccessesArePushed(log: Log, calls: seq<Call>)
    ensures RecordAll(log, calls) == PushAll(log, Successes(calls))
    decreases |calls|
  {
    hide Push;
    if calls != [] {
      var rest := Successes(calls[1..]);
      OnlySuccessesArePushed(Recorded(log, calls[0]), calls[1..]);
      if Succeeded(calls[0].decoded) { PushFirst(log, ReceiptOf(calls[0]), rest); } else { assert [] + rest == rest; }
    }
  }

  /**
   Called one at a time, with any mix of answers, `recordSettlement` keeps exactly the
   newest 100 successes, newest first.
   */
  lemma SerialIsNewest(log: Log, calls: seq<Call>)
    requires |log| <= LOG_MAX
    ensures RecordAll(log, calls) == Newest(NewestFirst(Successes(calls)) + log)
  {
    OnlySuccessesArePushed(log, calls);
    PushAllIsNewest(log, Successes(calls));
  }

  // ------------------------------------------------------- serial schedules of the route

  /** The event reads the log for a settlement that was reported with its transaction. */
  predicate ReadsLog(c: Config, s: State, e: Event) {
    && e.ReadLog? && c.kv && e.request < |s.requests| && e.version < |s.versions|
    && s.requests[e.request].phase.Confirmed? && s.requests[e.request].phase.reported
  }

  /** Every read of the log returns its newest value, and its write follows at once. */
  predicate SerialLog(c: Config, s: State, events: seq<Event>, oldTxs: set<string>)
    decreases |events|
  {
    events != [] ==>
      && (ReadsLog(c, s, events[0]) ==>
            events[0].version == |s.versions| - 1 && |events| > 1 && events[1] == WriteLog(events[0].request))
      && SerialLog(c, Next(c, s, events[0], oldTxs), events[1..], oldTxs)
  }

  /** The receipts of the settlements whose log was read, in order. */
  function Written(c: Config, s: State, events: seq<Event>, oldTxs: set<string>): seq<Receipt>
    decreases |events|
  {
    if events == [] then []
    else
      var e := events[0];
      (if ReadsLog(c, s, e) then [ReceiptFor(s.requests[e.request], s.requests[e.request].phase.tx, e.now)] else [])
      + Written(c, Next(c, s, e, oldTxs), events[1..], oldTxs)
  }

  /** Nobody is between read and write. */
  predicate Idle(s: State) {
    s.versions != [] && forall i | 0 <= i < |s.requests| :: !s.requests[i].phase.Logging?
  }

  lemma OtherStep(c: Config, s: State, e: Event, oldTxs: set<string>)
    requires Idle(s) && !ReadsLog(c, s, e)
    ensures Idle(Next(c, s, e, oldTxs)) && Next(c, s, e, oldTxs).versions == s.versions
  {
    hide AuthUsed, TxUsed;
  }

  lemma ReadAndWrite(c: Config, s: State, e: Event, oldTxs: set<string>)
    requires Idle(s) && ReadsLog(c, s, e) && e.version == |s.versions| - 1
    ensures var t := Next(c, Next(c, s, e, oldTxs), WriteLog(e.request), oldTxs);
      var r := s.requests[e.request];
      Idle(t) && t.versions == s.versions + [Push(ReceiptFor(r, r.phase.tx, e.now), s.versions[|s.versions| - 1])]
  {
    hide AuthUsed, TxUsed, Push;
  }

  lemma {:induction false} SerialRun(c: Config, s: State, events: seq<Event>, oldTxs: set<string>)
    requires Idle(s) && SerialLog(c, s, events, oldTxs)
    ensures var end := Run(c, s, events, oldTxs);
      && end.versions != []
      && end.versions[|end.versions| - 1] == PushAll(s.versions[|s.versions| - 1], Written(c, s, events, oldTxs))
    decreases |events|
  {
    hide Next, Push, ReadsLog, Idle;
    assert s.versions != [] by { IdleHasLog(s); }
    if events != [] {
      var t := Next(c, s, events[0], oldTxs);
      if ReadsLog(c, s, events[0]) {
        IsRead(c, s, events[0]);
        ReadAndWrite(c, s, events[0], oldTxs);
        var u := Next(c, t, events[1], oldTxs);
        WriteReadsNothing(c, t, events[1]);
        SerialRun(c, u, events[1..][1..], oldTxs);
        var r, rest := s.requests[events[0].request], Written(c, u, events[1..][1..], oldTxs);
        assert [] + rest == rest;
        PushFirst(s.versions[|s.versions| - 1], ReceiptFor(r, r.phase.tx, events[0].now), rest);
      } else {
        OtherStep(c, s, events[0], oldTxs);
        SerialRun(c, t, events[1..], oldTxs);
        assert [] + Written(c, t, events[1..], oldTxs) == Written(c, t, events[1..], oldTxs);
      }
    }
  }

  lemma IdleHasLog(s: State)
    requires Idle(s)
    ensures s.versions != []
  {
  }

  lemma IsRead(c: Config, s: State, e: Event)
    requires ReadsLog(c, s, e)
    ensures e.ReadLog? && e.request < |s.requests| && s.requests[e.request].phase.Confirmed?
  {
  }

  lemma WriteReadsNothing(c: Config, t: State, e: Event)
    requires e.WriteLog?
    ensures !ReadsLog(c, t, e)
  {
  }

  /**
   In every schedule of the route in which a log is read fresh and written at once, the log
   ends as exactly the newest 100 of the settlements that were recorded, newest first.
   */
  lemma SerialScheduleIsNewest(c: Config, log: Log, events: seq<Event>, oldTxs: set<string>)
    requires |log| <= LOG_MAX && SerialLog(c, Start(log), events, oldTxs)
    ensures var end := Run(c, Start(log), events, oldTxs);
      && end.versions != []
      && end.versions[|end.versions| - 1] == Newest(NewestFirst(Written(c, Start(log), events, oldTxs)) + log)
  {
    hide Run, SerialLog, Written;
    SerialRun(c, Start(log), events, oldTxs);
    PushAllIsNewest(log, Written(c, Start(log), events, oldTxs));
  }
}
