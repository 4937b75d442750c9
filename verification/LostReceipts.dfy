/**
 When the receipt log loses a receipt: exactly when one is written over a log that is no
 longer the newest. The log is read and written back without a lock, so two settlements
 can read the same log, and the later write drops the receipt of the earlier one.
 */
module LostReceipts {
  import opened Options
  import opened PaidRoute
  import opened Receipts
  import opened Replay

  /** The event writes a receipt over the log that its request has read. */
  predicate Writes(s: State, e: Event) {
    e.WriteLog? && e.request < |s.requests| && s.requests[e.request].phase.Logging?
  }

  function ReceiptOfWrite(s: State, e: Event): Receipt
    requires Writes(s, e)
  {
    var r := s.requests[e.request];
    ReceiptFor(r, r.phase.tx, r.phase.now)
  }

  function NewestVersion(s: State): Log
    requires s.versions != []
  {
    s.versions[|s.versions| - 1]
  }

  /** Every receipt is written over the newest log. */
  predicate FreshWrites(c: Config, s: State, events: seq<Event>, oldTxs: set<string>)
    requires s.versions != []
    decreases |events|
  {
    events != [] ==>
      var e, t := events[0], Next(c, s, events[0], oldTxs);
      VersionsOf(c, s, e, oldTxs);
      && (Writes(s, e) ==> s.requests[e.request].phase.base == NewestVersion(s))
      && FreshWrites(c, t, events[1..], oldTxs)
  }

  /** The receipts that were written, in order. */
  function AllWritten(c: Config, s: State, events: seq<Event>, oldTxs: set<string>): seq<Receipt>
    decreases |events|
  {
    if events == [] then []
    else
      (if Writes(s, events[0]) then [ReceiptOfWrite(s, events[0])] else [])
      + AllWritten(c, Next(c, s, events[0], oldTxs), events[1..], oldTxs)
  }

  /** Only a write adds a version of the log. */
  lemma VersionsOf(c: Config, s: State, e: Event, oldTxs: set<string>)
    ensures Next(c, s, e, oldTxs).versions == s.versions
      + if Writes(s, e) then [Push(ReceiptOfWrite(s, e), s.requests[e.request].phase.base)] else []
  {
    hide AuthUsed, TxUsed, Push;
  }

  /** Versions are never changed, and there is one for each receipt written. */
  lemma {:induction false} VersionsGrow(c: Config, s: State, events: seq<Event>, oldTxs: set<string>)
    ensures var end := Run(c, s, events, oldTxs);
      && s.versions <= end.versions && |end.versions| == |s.versions| + |AllWritten(c, s, events, oldTxs)|
    decreases |events|
  {
    hide Next, Push, Writes, ReceiptOfWrite;
    if events != [] {
      VersionsOf(c, s, events[0], oldTxs);
      VersionsGrow(c, Next(c, s, events[0], oldTxs), events[1..], oldTxs);
    }
  }

  // ------------------------------------------------------------ fresh writes lose nothing

  /** The logs of a run in which nothing is lost: each receipt in front of all before it. */
  predicate NothingLost(versions: seq<Log>, log: Log, written: seq<Receipt>) {
    && |versions| == |written| + 1
    && forall k | 0 <= k <= |written| :: versions[k] == PushAll(log, written[..k])
  }

  lemma PushAllNone(log: Log)
    ensures PushAll(log, []) == log
  {
  }

  lemma NothingLostFirst(versions: seq<Log>, log: Log, receipt: Receipt, rest: seq<Receipt>)
    requires |versions| >= 2 && versions[0] == log && versions[1] == Push(receipt, log)
    ensures NothingLost(versions, log, [receipt] + rest) <==> NothingLost(versions[1..], Push(receipt, log), rest)
  {
    hide Push;
    var written := [receipt] + rest;
    PushAllNone(log);
    assert written[..0] == [];
    forall k | 0 <= k <= |rest| ensures PushAll(log, written[..k + 1]) == PushAll(Push(receipt, log), rest[..k]) {
      assert written[..k + 1] == [receipt] + rest[..k];
      PushFirst(log, receipt, rest[..k]);
    }
    if |versions| == |written| + 1 {
      assert forall k | 0 <= k <= |rest| :: versions[1..][k] == versions[k + 1];
      if NothingLost(versions[1..], Push(receipt, log), rest) {
        forall k | 0 <= k <= |written| ensures versions[k] == PushAll(log, written[..k]) {
          if k > 0 { assert versions[1..][k - 1] == versions[k]; }
        }
      }
    }
  }

  /** Each version of the log starts with a transaction that no version before it has. */
  ghost predicate HeadsAreNew(versions: seq<Log>) {
    && (forall v | 0 < v < |versions| :: versions[v] != [])
    && (forall u, v | 0 <= u < v < |versions| :: !Holds(versions[u], versions[v][0].txHash))
  }

  lemma HeadsAppend(versions: seq<Log>, log: Log)
    requires HeadsAreNew(versions) && log != []
    requires forall v | 0 <= v < |versions| :: !Holds(versions[v], log[0].txHash)
    ensures HeadsAreNew(versions + [log])
  {
    hide Holds;
  }

  lemma WriteHeads(c: Config, s: State, e: Event, oldTxs: set<string>)
    requires LogInv(s, oldTxs) && HeadsAreNew(s.versions)
    ensures HeadsAreNew(Next(c, s, e, oldTxs).versions)
  {
    hide LogsGood, Next, OwnTx, HeadsAreNew, Holds;
    VersionsOf(c, s, e, oldTxs);
    if Writes(s, e) {
      assert Pending(s, e.request);
      var pushed := Push(ReceiptOfWrite(s, e), s.requests[e.request].phase.base);
      assert pushed[0] == ReceiptOfWrite(s, e);
      HeadsAppend(s.versions, pushed);
    } else {
      assert s.versions + [] == s.versions;
    }
  }

  /** A write over an older log differs from one over the newest. */
  lemma StaleDiffers(s: State, e: Event, oldTxs: set<string>)
    requires LogInv(s, oldTxs) && HeadsAreNew(s.versions) && Writes(s, e) && s.versions != []
    requires s.requests[e.request].phase.base != NewestVersion(s)
    ensures Push(ReceiptOfWrite(s, e), s.requests[e.request].phase.base)
         != Push(ReceiptOfWrite(s, e), NewestVersion(s))
  {
    hide LogsGood, OwnTx;
    var base, last := s.requests[e.request].phase.base, NewestVersion(s);
    assert Pending(s, e.request);
    var u :| 0 <= u < |s.versions| && s.versions[u] == base;
    assert u < |s.versions| - 1;
    assert !Holds(base, last[0].txHash);
    var receipt := ReceiptOfWrite(s, e);
    assert Push(receipt, last)[1] == last[0];
    if base != [] {
      assert Push(receipt, base)[1] == base[0] && base[0].txHash != last[0].txHash;
    }
  }

  /** From a log on: nothing is lost exactly if every write is over the newest log. */
  lemma {:induction false} FreshIffNothingLost(c: Config, s: State, events: seq<Event>, oldTxs: set<string>)
    requires LogInv(s, oldTxs) && HeadsAreNew(s.versions) && s.versions != []
    ensures var end, n := Run(c, s, events, oldTxs), |s.versions| - 1;
      && |end.versions| > n
      && (NothingLost(end.versions[n..], NewestVersion(s), AllWritten(c, s, events, oldTxs))
          <==> FreshWrites(c, s, events, oldTxs))
    decreases |events|
  {
    hide LogInv, HeadsAreNew, Next, Push, PushAll, NothingLost, Writes, ReceiptOfWrite;
    var n := |s.versions| - 1;
    if events == [] {
      assert s.versions[n..] == [NewestVersion(s)];
      LostNothingYet(NewestVersion(s));
    } else {
      var e, t := events[0], Next(c, s, events[0], oldTxs);
      var rest := AllWritten(c, t, events[1..], oldTxs);
      VersionsOf(c, s, e, oldTxs);
      StepKeeps(c, s, e, oldTxs);
      WriteHeads(c, s, e, oldTxs);
      FreshIffNothingLost(c, t, events[1..], oldTxs);
      VersionsGrow(c, t, events[1..], oldTxs);
      if Writes(s, e) {
        FirstWrite(c, s, e, t.versions, Run(c, t, events[1..], oldTxs).versions, rest, oldTxs);
      } else {
        assert [] + rest == rest;
      }
    }
  }

  lemma LostNothingYet(log: Log)
    ensures NothingLost([log], log, [])
  {
  }

  /** Whether something is lost with the first write, or after it. */
  lemma FirstWrite(c: Config, s: State, e: Event, next: seq<Log>, versions: seq<Log>, rest: seq<Receipt>,
                   oldTxs: set<string>)
    requires LogInv(s, oldTxs) && HeadsAreNew(s.versions) && s.versions != [] && Writes(s, e)
    requires next == s.versions + [Push(ReceiptOfWrite(s, e), s.requests[e.request].phase.base)] && next <= versions
    ensures var n := |s.versions| - 1;
      NothingLost(versions[n..], NewestVersion(s), [ReceiptOfWrite(s, e)] + rest)
      <==> s.requests[e.request].phase.base == NewestVersion(s) && NothingLost(versions[n + 1..], next[n + 1], rest)
  {
    hide LogInv, HeadsAreNew, Push, ReceiptOfWrite, NothingLost;
    var n, base, receipt := |s.versions| - 1, s.requests[e.request].phase.base, ReceiptOfWrite(s, e);
    var later := versions[n..];
    assert later[0] == next[n] && later[1] == next[n + 1] && later[1..] == versions[n + 1..];
    if base == NewestVersion(s) {
      NothingLostFirst(later, base, receipt, rest);
    } else {
      StaleDiffers(s, e, oldTxs);
      if NothingLost(later, NewestVersion(s), [receipt] + rest) {
        SecondVersion(later, NewestVersion(s), receipt, rest);
      }
    }
  }

  lemma SecondVersion(versions: seq<Log>, log: Log, receipt: Receipt, rest: seq<Receipt>)
    requires NothingLost(versions, log, [receipt] + rest)
    ensures versions[1] == Push(receipt, log)
  {
    hide Push;
    assert ([receipt] + rest)[..1] == [receipt] + [];
    PushFirst(log, receipt, []);
    PushAllNone(Push(receipt, log));
  }

  lemma StartIsGood(log: Log, oldTxs: set<string>)
    requires |log| <= LOG_MAX && DistinctTxs(log) && forall k | 0 <= k < |log| :: log[k].txHash in oldTxs
    ensures LogInv(Start(log), oldTxs) && HeadsAreNew(Start(log).versions)
  {
    assert LogsGood(Start(log), oldTxs);
  }

  /**
   In every interleaving, the log is at every moment exactly the newest 100 of the receipts
   written so far, newest first, if and only if every receipt was written over the newest log.
   */
  lemma NothingLostIff(c: Config, log: Log, events: seq<Event>, oldTxs: set<string>)
    requires |log| <= LOG_MAX && DistinctTxs(log) && forall k | 0 <= k < |log| :: log[k].txHash in oldTxs
    ensures var versions, written := Run(c, Start(log), events, oldTxs).versions,
                                     AllWritten(c, Start(log), events, oldTxs);
      && |versions| == |written| + 1
      && ((forall k | 0 <= k < |versions| :: versions[k] == Newest(NewestFirst(written[..k]) + log))
          <==> FreshWrites(c, Start(log), events, oldTxs))
  {
    hide Run, AllWritten, FreshWrites, LogInv, HeadsAreNew, PushAll, Newest, NewestFirst;
    var versions, written := Run(c, Start(log), events, oldTxs).versions, AllWritten(c, Start(log), events, oldTxs);
    StartIsGood(log, oldTxs);
    FreshIffNothingLost(c, Start(log), events, oldTxs);
    VersionsGrow(c, Start(log), events, oldTxs);
    assert versions[0..] == versions;
    forall k | 0 <= k < |versions|
      ensures PushAll(log, written[..k]) == Newest(NewestFirst(written[..k]) + log)
    {
      PushAllIsNewest(log, written[..k]);
    }
  }

  // ------------------------------------------------------------ counting, below the limit

  /** A log is never longer than what was written before it. */
  predicate Short(versions: seq<Log>, start: nat) { forall v | 0 <= v < |versions| :: |versions[v]| <= start + v }

  lemma {:induction false} LengthIff(c: Config, s: State, events: seq<Event>, oldTxs: set<string>, start: nat)
    requires LogInv(s, oldTxs) && Short(s.versions, start) && s.versions != []
    requires start + |s.versions| - 1 + |AllWritten(c, s, events, oldTxs)| <= LOG_MAX
    ensures var end := Run(c, s, events, oldTxs);
      && end.versions != []
      && |NewestVersion(end)| <= start + |end.versions| - 1
      && (|NewestVersion(end)| == start + |end.versions| - 1
          <==> |NewestVersion(s)| == start + |s.versions| - 1 && FreshWrites(c, s, events, oldTxs))
    decreases |events|
  {
    hide LogInv, Next, Push, Writes, ReceiptOfWrite;
    if events != [] {
      var e, t := events[0], Next(c, s, events[0], oldTxs);
      VersionsOf(c, s, e, oldTxs);
      StepKeeps(c, s, e, oldTxs);
      if Writes(s, e) { WriteLength(s, e, oldTxs, start); }
      LengthIff(c, t, events[1..], oldTxs, start);
    }
  }

  /** A write over an older log leaves a log that is too short. */
  lemma WriteLength(s: State, e: Event, oldTxs: set<string>, start: nat)
    requires LogInv(s, oldTxs) && Short(s.versions, start) && s.versions != [] && Writes(s, e)
    requires start + |s.versions| <= LOG_MAX
    ensures var base := s.requests[e.request].phase.base;
      var longer := |Push(ReceiptOfWrite(s, e), base)|;
      && longer <= start + |s.versions|
      && (longer == start + |s.versions|
          <==> |NewestVersion(s)| == start + |s.versions| - 1 && base == NewestVersion(s))
  {
    hide LogsGood, OwnTx, Holds;
    assert Pending(s, e.request);
    var u :| 0 <= u < |s.versions| && s.versions[u] == s.requests[e.request].phase.base;
  }

  /**
   As long as the log is not cut: the last log has every receipt, those it began with and
   every one written, if and only if every receipt was written over the newest log; and if
   not, it has fewer.
   */
  lemma EveryReceiptKeptIff(c: Config, log: Log, events: seq<Event>, oldTxs: set<string>)
    requires DistinctTxs(log) && forall k | 0 <= k < |log| :: log[k].txHash in oldTxs
    requires |log| + |AllWritten(c, Start(log), events, oldTxs)| <= LOG_MAX
    ensures var end, written := Run(c, Start(log), events, oldTxs), AllWritten(c, Start(log), events, oldTxs);
      && end.versions != []
      && |NewestVersion(end)| <= |log| + |written|
      && (|NewestVersion(end)| == |log| + |written| <==> FreshWrites(c, Start(log), events, oldTxs))
      && (NewestVersion(end) == NewestFirst(written) + log <==> FreshWrites(c, Start(log), events, oldTxs))
  {
    hide Run, AllWritten, FreshWrites, LogInv, HeadsAreNew, NewestFirst;
    var end, written := Run(c, Start(log), events, oldTxs), AllWritten(c, Start(log), events, oldTxs);
    StartIsGood(log, oldTxs);
    LengthIff(c, Start(log), events, oldTxs, |log|);
    VersionsGrow(c, Start(log), events, oldTxs);
    NewestFirstLength(written);
    if FreshWrites(c, Start(log), events, oldTxs) {
      NothingLostIff(c, log, events, oldTxs);
      assert written[..|written|] == written;
      assert end.versions[|written|] == Newest(NewestFirst(written[..|written|]) + log);
    }
  }

  lemma {:induction false} NewestFirstLength(receipts: seq<Receipt>)
    ensures |NewestFirst(receipts)| == |receipts|
  {
    if receipts != [] { NewestFirstLength(receipts[1..]); }
  }

  // ------------------------------------------------------------- without interference

  /** What the facilitator's response says of a settlement that is reported with its transaction. */
  function ResponseTo(r: Request): Decoded
    requires r.phase.Confirmed?
  {
    Response(true, Some(r.phase.tx), r.payer)
  }

  /**
   Without another write in between, reading the newest log and writing it back is one call of
   `recordSettlement`: the log gets what that call records.
   */
  lemma UndisturbedIsRecorded(c: Config, s: State, i: nat, now: int, oldTxs: set<string>)
    requires s.versions != [] && c.kv && i < |s.requests|
    requires s.requests[i].phase.Confirmed? && s.requests[i].phase.reported && s.requests[i].phase.tx != ""
    ensures var r := s.requests[i];
      var end := Run(c, s, [ReadLog(i, |s.versions| - 1, now), WriteLog(i)], oldTxs);
      end.versions == s.versions + [Recorded(NewestVersion(s), Call(ResponseTo(r), r.price, r.resource, now))]
  {
    hide Next, Run, Push;
    var read, n := ReadLog(i, |s.versions| - 1, now), |s.versions| - 1;
    ReadIs(c, s, i, n, now, oldTxs);
    WriteIs(c, Next(c, s, read, oldTxs), i, oldTxs);
    TwoSteps(c, s, read, WriteLog(i), [], oldTxs);
    RunNone(c, Both(c, s, read, WriteLog(i), oldTxs), oldTxs);
    assert [read, WriteLog(i)] + [] == [read, WriteLog(i)];
  }

  // -------------------------------------------------------------------- a lost receipt

  /** Both requests read this version of the log, and then each writes its receipt. */
  function Overlap(i: nat, j: nat, version: nat, now: int, later: int): seq<Event> {
    [ReadLog(i, version, now), ReadLog(j, version, later), WriteLog(i), WriteLog(j)]
  }

  lemma ReadIs(c: Config, s: State, i: nat, version: nat, now: int, oldTxs: set<string>)
    requires c.kv && i < |s.requests| && version < |s.versions|
    requires s.requests[i].phase.Confirmed? && s.requests[i].phase.reported
    ensures Next(c, s, ReadLog(i, version, now), oldTxs)
         == InPhase(s, i, Logging(s.requests[i].phase.tx, s.versions[version], now))
  {
    hide AuthUsed, TxUsed;
  }

  lemma WriteIs(c: Config, s: State, i: nat, oldTxs: set<string>)
    requires i < |s.requests| && s.requests[i].phase.Logging?
    ensures var phase := s.requests[i].phase;
      Next(c, s, WriteLog(i), oldTxs) == InPhase(s, i, Logged(phase.tx)).(
        versions := s.versions + [Push(ReceiptFor(s.requests[i], phase.tx, phase.now), phase.base)])
  {
    hide AuthUsed, TxUsed, Push;
  }

  lemma FourEvents(c: Config, s: State, events: seq<Event>, oldTxs: set<string>)
    requires |events| == 4
    ensures Run(c, s, events, oldTxs)
         == Both(c, Both(c, s, events[0], events[1], oldTxs), events[2], events[3], oldTxs)
  {
    FourSteps(c, s, events[0], events[1], events[2], events[3], oldTxs);
    assert events == [events[0], events[1], events[2], events[3]];
  }

  /** A write over an old log, wherever it is in the schedule. */
  lemma {:induction false} StaleLater(c: Config, s: State, before: seq<Event>, e: Event, rest: seq<Event>,
                                      oldTxs: set<string>)
    requires s.versions != []
    requires var t := Run(c, s, before, oldTxs);
      t.versions != [] && Writes(t, e) && t.requests[e.request].phase.base != NewestVersion(t)
    ensures !FreshWrites(c, s, before + [e] + rest, oldTxs)
    decreases |before|
  {
    hide Next;
    var events := before + [e] + rest;
    VersionsOf(c, s, events[0], oldTxs);
    if before != [] {
      StaleLater(c, Next(c, s, before[0], oldTxs), before[1..], e, rest, oldTxs);
      assert events[1..] == before[1..] + [e] + rest;
    }
  }

  lemma OverlapEnds(c: Config, s: State, i: nat, j: nat, now: int, later: int, oldTxs: set<string>)
    requires s.versions != [] && c.kv && i < |s.requests| && j < |s.requests| && i != j
    requires s.requests[i].phase.Confirmed? && s.requests[i].phase.reported
    requires s.requests[j].phase.Confirmed? && s.requests[j].phase.reported
    ensures var end := Run(c, s, Overlap(i, j, |s.versions| - 1, now, later), oldTxs);
      var ri := ReceiptFor(s.requests[i], s.requests[i].phase.tx, now);
      var rj := ReceiptFor(s.requests[j], s.requests[j].phase.tx, later);
      && end.versions == s.versions + [Push(ri, NewestVersion(s)), Push(rj, NewestVersion(s))]
      && end.trace == s.trace && |end.requests| == |s.requests| && end.requests[i].phase == Logged(ri.txHash)
      && (Push(ri, NewestVersion(s)) != NewestVersion(s) ==>
            !FreshWrites(c, s, Overlap(i, j, |s.versions| - 1, now, later), oldTxs))
  {
    hide Push, Next, Run, FreshWrites;
    var n := |s.versions| - 1;
    var events, last := Overlap(i, j, n, now, later), NewestVersion(s);
    ReadIs(c, s, i, n, now, oldTxs);
    var s1 := Next(c, s, events[0], oldTxs);
    ReadIs(c, s1, j, n, later, oldTxs);
    var s2 := Next(c, s1, events[1], oldTxs);
    WriteIs(c, s2, i, oldTxs);
    var s3 := Next(c, s2, events[2], oldTxs);
    WriteIs(c, s3, j, oldTxs);
    FourEvents(c, s, events, oldTxs);
    ThreeSteps(c, s, events[0], events[1], events[2], oldTxs);
    if NewestVersion(s3) != last {
      StaleLater(c, s, [events[0], events[1], events[2]], events[3], [], oldTxs);
      assert [events[0], events[1], events[2]] + [events[3]] + [] == events;
    }
  }

  /**
   The input: in any reachable state, two requests whose settlements were reported. The log
   ends as the old one with the second receipt only; the first is gone.
   */
  lemma OverlapLosesReceipt(c: Config, s: State, i: nat, j: nat, now: int, later: int, oldTxs: set<string>)
    requires LogInv(s, oldTxs) && s.versions != [] && c.kv && i < |s.requests| && j < |s.requests| && i != j
    requires s.requests[i].phase.Confirmed? && s.requests[i].phase.reported
    requires s.requests[j].phase.Confirmed? && s.requests[j].phase.reported
    ensures var end := Run(c, s, Overlap(i, j, |s.versions| - 1, now, later), oldTxs);
      var ri := ReceiptFor(s.requests[i], s.requests[i].phase.tx, now);
      var rj := ReceiptFor(s.requests[j], s.requests[j].phase.tx, later);
      && end.versions == s.versions + [Push(ri, NewestVersion(s)), Push(rj, NewestVersion(s))]
      && TxUsed(end.trace, ri.txHash) && TxUsed(end.trace, rj.txHash)
      && |end.requests| == |s.requests| && end.requests[i].phase == Logged(ri.txHash)
      && !Holds(NewestVersion(end), ri.txHash)
      && !FreshWrites(c, s, Overlap(i, j, |s.versions| - 1, now, later), oldTxs)
  {
    hide TxUsed, Holds, Push, LogInv, Next, Run, FreshWrites, Overlap, OwnTx;
    var last := NewestVersion(s);
    var ri := ReceiptFor(s.requests[i], s.requests[i].phase.tx, now);
    var rj := ReceiptFor(s.requests[j], s.requests[j].phase.tx, later);
    OwnReceipts(s, i, j, oldTxs);
    PushOf(ri, last);
    PushOf(rj, last);
    assert Push(ri, last) != last;
    OverlapEnds(c, s, i, j, now, later, oldTxs);
  }

  /** Of two such requests, each has its own transaction, which no log has yet. */
  lemma OwnReceipts(s: State, i: nat, j: nat, oldTxs: set<string>)
    requires LogInv(s, oldTxs) && s.versions != [] && i < |s.requests| && j < |s.requests| && i != j
    requires s.requests[i].phase.Confirmed? && s.requests[j].phase.Confirmed?
    ensures TxUsed(s.trace, s.requests[i].phase.tx) && TxUsed(s.trace, s.requests[j].phase.tx)
    ensures !Holds(NewestVersion(s), s.requests[i].phase.tx)
    ensures s.requests[i].phase.tx != s.requests[j].phase.tx
  {
    hide LogsGood, Holds, TxUsed;
    assert Pending(s, i) && OwnTx(s, i, oldTxs) && OwnTx(s, j, oldTxs);
  }

  lemma PushOf(receipt: Receipt, log: Log)
    ensures Push(receipt, log) != [] && Push(receipt, log)[0] == receipt && Holds(Push(receipt, log), receipt.txHash)
    ensures forall tx :: Holds(Push(receipt, log), tx) ==> tx == receipt.txHash || Holds(log, tx)
  {
    var p := Push(receipt, log);
    assert p[0] == receipt;
    forall tx | Holds(p, tx) ensures tx == receipt.txHash || Holds(log, tx) {
      var k :| 0 <= k < |p| && p[k].txHash == tx;
      if k > 0 { assert log[k - 1].txHash == tx; }
    }
  }

  /** From arrival to a reported settlement. */
  function Settling(i: nat, tx: string): seq<Event> { Turn(i) + [Submit(i), Mine(i, tx), Report(i, true, true)] }

  lemma SettlingIs(c: Config, s: State, i: nat, tx: string, oldTxs: set<string>)
    requires c.kv && i < |s.requests| && s.requests[i].phase == Arrived
    requires !AuthUsed(c, s.trace, c.authOf(s.requests[i].header))
    requires !TxUsed(s.trace, tx) && tx !in oldTxs && tx != ""
    ensures var t := Run(c, s, Settling(i, tx), oldTxs);
      && t.requests == s.requests[i := s.requests[i].(phase := Confirmed(tx, true))] && t.versions == s.versions
      && forall f | f in t.trace :: f.Settled? ==> f in s.trace || f == Settled(i, s.requests[i].header, tx)
  {
    hide Run, Turn;
    TurnIs(c, s, i, oldTxs);
    RunConcat(c, s, Turn(i), [Submit(i), Mine(i, tx), Report(i, true, true)], oldTxs);
    PaymentIs(c, AfterTurn(c, s, i), i, tx, oldTxs);
  }

  lemma PaymentIs(c: Config, s: State, i: nat, tx: string, oldTxs: set<string>)
    requires i < |s.requests| && s.requests[i].phase == Ready
    requires !AuthUsed(c, s.trace, c.authOf(s.requests[i].header))
    requires !TxUsed(s.trace, tx) && tx !in oldTxs && tx != ""
    ensures Run(c, s, [Submit(i), Mine(i, tx), Report(i, true, true)], oldTxs)
         == Note(InPhase(s, i, Confirmed(tx, true)), Settled(i, s.requests[i].header, tx))
  {
    hide AuthUsed, TxUsed;
    var events := [Submit(i), Mine(i, tx), Report(i, true, true)];
    var s1 := InPhase(s, i, Submitted);
    var s2 := Note(InPhase(s, i, Mined(tx)), Settled(i, s.requests[i].header, tx));
    var s3 := Note(InPhase(s, i, Confirmed(tx, true)), Settled(i, s.requests[i].header, tx));
    assert Next(c, s, events[0], oldTxs) == s1;
    assert Next(c, s1, events[1], oldTxs) == s2 by {
      assert s1.requests[i := s1.requests[i].(phase := Mined(tx))] == s2.requests;
    }
    assert Next(c, s2, events[2], oldTxs) == s3 by {
      assert s2.requests[i := s2.requests[i].(phase := Confirmed(tx, true))] == s3.requests;
    }
    hide Next, InPhase, Note;
    assert events[1..] == [events[1], events[2]] && [events[1], events[2]][1..] == [events[2]];
    assert [events[2]][1..] == [];
    assert Run(c, s2, [events[2]], oldTxs) == s3;
    assert Run(c, s1, [events[1], events[2]], oldTxs) == s3;
  }

  /** One payment after the other, up to the reports. */
  function TwoPayments(a: Event, b: Event, tx: string, ty: string): seq<Event> {
    [a, b] + (Settling(0, tx) + Settling(1, ty))
  }

  function Paying(a: Event, tx: string): Request
    requires a.Arrive?
  {
    Request(a.header, a.payer, a.resource, a.price, Confirmed(tx, true))
  }

  lemma BothSettle(c: Config, log: Log, a: Event, b: Event, tx: string, ty: string, oldTxs: set<string>)
    requires c.kv && a.Arrive? && b.Arrive? && c.authOf(a.header) != c.authOf(b.header)
    requires tx != ty && tx != "" && ty != "" && tx !in oldTxs && ty !in oldTxs
    ensures var t := Run(c, Start(log), TwoPayments(a, b, tx, ty), oldTxs);
      t.requests == [Paying(a, tx), Paying(b, ty)] && t.versions == [log]
    ensures Arrivals(TwoPayments(a, b, tx, ty)) == [a, b]
  {
    hide Run, Turn, Settling, Arrivals;
    var s := State(Requests([a, b]), [log], []);
    AllArrive(c, log, [a, b], oldTxs);
    SettlingIs(c, s, 0, tx, oldTxs);
    var t := Run(c, s, Settling(0, tx), oldTxs);
    SettlingIs(c, t, 1, ty, oldTxs);
    RunConcat(c, s, Settling(0, tx), Settling(1, ty), oldTxs);
    RunConcat(c, Start(log), [a, b], Settling(0, tx) + Settling(1, ty), oldTxs);
    NoArrivals([a, b], Settling(0, tx) + Settling(1, ty)) by { SettlingArrivesNot(tx, ty); }
  }

  lemma SettlingArrivesNot(tx: string, ty: string)
    ensures var events := Settling(0, tx) + Settling(1, ty);
      forall k | 0 <= k < |events| :: !events[k].Arrive?
  {
  }

  /**
   So from the start, for any two payments with different authorizations: both settle, and
   the log ends without a receipt of the first.
   */
  lemma ReceiptIsLost(c: Config, log: Log, a: Event, b: Event, tx: string, ty: string, now: int, later: int,
                      oldTxs: set<string>)
    requires c.kv && a.Arrive? && b.Arrive? && c.authOf(a.header) != c.authOf(b.header)
    requires tx != ty && tx != "" && ty != "" && tx !in oldTxs && ty !in oldTxs
    requires |log| <= LOG_MAX && DistinctTxs(log) && forall k | 0 <= k < |log| :: log[k].txHash in oldTxs
    ensures var events := TwoPayments(a, b, tx, ty) + Overlap(0, 1, 0, now, later);
      var end := Run(c, Start(log), events, oldTxs);
      && Arrivals(events) == [a, b]
      && end.versions
         == [log, Push(ReceiptFor(Paying(a, tx), tx, now), log), Push(ReceiptFor(Paying(b, ty), ty, later), log)]
      && TxUsed(end.trace, tx) && TxUsed(end.trace, ty) && !Holds(end.versions[2], tx)
  {
    hide Run, Holds, LogInv, Overlap, FreshWrites, Push, TxUsed, Arrivals, TwoPayments;
    var events := TwoPayments(a, b, tx, ty);
    var t := Run(c, Start(log), events, oldTxs);
    BothSettle(c, log, a, b, tx, ty, oldTxs);
    StartIsGood(log, oldTxs);
    RunKeeps(c, Start(log), events, oldTxs);
    OverlapLosesReceipt(c, t, 0, 1, now, later, oldTxs);
    RunConcat(c, Start(log), events, Overlap(0, 1, 0, now, later), oldTxs);
    NoArrivals(events, Overlap(0, 1, 0, now, later)) by { OverlapArrivesNot(now, later); }
  }

  lemma OverlapArrivesNot(now: int, later: int)
    ensures forall k | 0 <= k < |Overlap(0, 1, 0, now, later)| :: !Overlap(0, 1, 0, now, later)[k].Arrive?
  {
  }
}
