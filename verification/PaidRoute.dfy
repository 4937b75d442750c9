/**
 The paid route of src/paid-route.ts and src/index.ts as a protocol: replay check, resource,
 settlement, receipt and delivery, for any number of requests at once.

 Each await is a step of its own. A KV read may be stale: it may miss a key that was
 written, and it may return any older value of the receipt log. The payment middleware and
 the chain are assumptions, built into `Next`: the middleware verifies the proof, runs the
 handler, submits only when the handler's status is below 400, and delivers only what it saw
 settle; the chain executes an authorization at most once (EIP-3009) and never reuses a
 transaction hash. A submitted transfer may be mined after the middleware gave up on it.
 */
module PaidRoute {
  import opened Options

  /** What a payment header means, how it is hashed, and whether a KV namespace is bound. */
  datatype Config = Config(authOf: string -> nat, hash: string -> string, kv: bool)

  datatype Receipt = Receipt(payer: Option<string>, amount: string, resource: string, txHash: string, timestamp: int)

  type Log = seq<Receipt>

  const LOG_MAX: nat := 100

  /** `log.unshift(receipt)` and the truncation to 100 entries. */
  function Push(receipt: Receipt, log: Log): Log {
    var longer := [receipt] + log;
    if |longer| > LOG_MAX then longer[..LOG_MAX] else longer
  }

  datatype Phase =
    | Arrived
    | Verified                                            // the middleware accepted the proof
    | Missing                                             // the replay key was not found
    | Keyed                                               // the replay key is written
    | Ready                                               // the handler returned below 400
    | Submitted                                           // sent to the facilitator
    | Mined(tx: string)                                   // executed, not yet reported
    | Confirmed(tx: string, reported: bool)               // reported; with its transaction or without
    | Logging(tx: string, base: Log, now: int)            // receipt log read
    | Logged(tx: string)
    | Delivered(tx: string)
    | Abandoned                                           // the middleware gave up after submitting
    | Stray(tx: string)                                   // ... and the transfer was executed all the same
    | Closed                                              // answered with an error

  datatype Request = Request(header: string, payer: Option<string>, resource: string, price: string, phase: Phase)

  /** What happened, in order. */
  datatype Fact =
    | KeyPut(key: string)
    | HandlerDone(request: nat, header: string, status: int)
    | Settled(request: nat, header: string, tx: string)
    | DeliveredTo(request: nat, header: string)

  datatype State = State(requests: seq<Request>, versions: seq<Log>, trace: seq<Fact>)

  datatype Event =
    | Arrive(header: string, payer: Option<string>, resource: string, price: string)
    | Verify(request: nat, ok: bool)
    | GetKey(request: nat, found: bool)
    | PutKey(request: nat)
    | Handle(request: nat, status: int)
    | Submit(request: nat)
    | Mine(request: nat, tx: string)
    | Report(request: nat, ok: bool, hasTx: bool)
    | ReadLog(request: nat, version: nat, now: int)
    | WriteLog(request: nat)
    | Deliver(request: nat)

  predicate AuthUsed(c: Config, trace: seq<Fact>, auth: nat) {
    exists f | f in trace :: f.Settled? && c.authOf(f.header) == auth
  }

  predicate TxUsed(trace: seq<Fact>, tx: string) {
    exists f | f in trace :: f.Settled? && f.tx == tx
  }

  function InPhase(s: State, i: nat, phase: Phase): State
    requires i < |s.requests|
  {
    s.(requests := s.requests[i := s.requests[i].(phase := phase)])
  }

  function Note(s: State, f: Fact): State { s.(trace := s.trace + [f]) }

  /** The transaction a request caused, once it has. */
  function TxOf(p: Phase): Option<string> {
    match p
    case Mined(tx) => Some(tx)
    case Confirmed(tx, _) => Some(tx)
    case Logging(tx, _, _) => Some(tx)
    case Logged(tx) => Some(tx)
    case Delivered(tx) => Some(tx)
    case Stray(tx) => Some(tx)
    case _ => None
  }

  function ReceiptFor(r: Request, tx: string, now: int): Receipt {
    Receipt(r.payer, r.price, r.resource, tx, now)
  }

  /** One step. An event that is not possible changes nothing. */
  function Next(c: Config, s: State, e: Event, oldTxs: set<string>): State {
    if e.Arrive? then s.(requests := s.requests + [Request(e.header, e.payer, e.resource, e.price, Arrived)])
    else if e.request >= |s.requests| then s
    else NextOf(c, s, e, e.request, s.requests[e.request], oldTxs)
  }

  function NextOf(c: Config, s: State, e: Event, i: nat, r: Request, oldTxs: set<string>): State
    requires i < |s.requests| && r == s.requests[i]
  {
    match (e, r.phase)
    case (Verify(_, ok), Arrived) => InPhase(s, i, if ok then Verified else Closed)
    case (GetKey(_, found), Verified) =>
      if !c.kv || (found && KeyPut(c.hash(r.header)) !in s.trace) then s
      else if found then Note(InPhase(s, i, Closed), HandlerDone(i, r.header, 402))
      else InPhase(s, i, Missing)
    case (PutKey(_), Missing) => Note(InPhase(s, i, Keyed), KeyPut(c.hash(r.header)))
    case (Handle(_, status), Verified) =>
      if c.kv then s else Note(InPhase(s, i, if status < 400 then Ready else Closed), HandlerDone(i, r.header, status))
    case (Handle(_, status), Keyed) =>
      Note(InPhase(s, i, if status < 400 then Ready else Closed), HandlerDone(i, r.header, status))
    case (Submit(_), Ready) => InPhase(s, i, Submitted)
    case (Mine(_, tx), Submitted) =>
      if AuthUsed(c, s.trace, c.authOf(r.header)) || TxUsed(s.trace, tx) || tx in oldTxs || tx == "" then s
      else Note(InPhase(s, i, Mined(tx)), Settled(i, r.header, tx))
    case (Mine(_, tx), Abandoned) =>
      if AuthUsed(c, s.trace, c.authOf(r.header)) || TxUsed(s.trace, tx) || tx in oldTxs || tx == "" then s
      else Note(InPhase(s, i, Stray(tx)), Settled(i, r.header, tx))
    case (Report(_, ok, _), Submitted) => if ok then s else InPhase(s, i, Abandoned)
    case (Report(_, ok, hasTx), Mined(tx)) => InPhase(s, i, if ok then Confirmed(tx, hasTx) else Stray(tx))
    case (ReadLog(_, k, now), Confirmed(tx, reported)) =>
      if !reported || !c.kv || k >= |s.versions| then s else InPhase(s, i, Logging(tx, s.versions[k], now))
    case (WriteLog(_), Logging(tx, base, now)) =>
      InPhase(s, i, Logged(tx)).(versions := s.versions + [Push(ReceiptFor(r, tx, now), base)])
    case (Deliver(_), Confirmed(tx, _)) => Note(InPhase(s, i, Delivered(tx)), DeliveredTo(i, r.header))
    case (Deliver(_), Logging(tx, _, _)) => Note(InPhase(s, i, Delivered(tx)), DeliveredTo(i, r.header))
    case (Deliver(_), Logged(tx)) => Note(InPhase(s, i, Delivered(tx)), DeliveredTo(i, r.header))
    case _ => s
  }

  function Run(c: Config, s: State, events: seq<Event>, oldTxs: set<string>): State
    decreases |events|
  {
    if events == [] then s else Run(c, Next(c, s, events[0], oldTxs), events[1..], oldTxs)
  }

  function Start(log: Log): State { State([], [log], []) }

  // ------------------------------------------------------------------ recordSettlement

  /** The decoded `payment-response` header. */
  datatype Decoded = Undecodable | Response(success: bool, transaction: Option<string>, payer: Option<string>)

  /** A settlement with a transaction; nothing else becomes a receipt. */
  predicate Succeeded(d: Decoded) {
    d.Response? && d.success && d.transaction.Some? && d.transaction.value != ""
  }

  datatype Call = Call(decoded: Decoded, price: string, resource: string, now: int)

  function ReceiptOf(call: Call): Receipt
    requires Succeeded(call.decoded)
  {
    Receipt(call.decoded.payer, call.price, call.resource, call.decoded.transaction.value, call.now)
  }

  /** The receipt log after a call of `recordSettlement`. */
  function Recorded(log: Log, call: Call): Log {
    if Succeeded(call.decoded) then Push(ReceiptOf(call), log) else log
  }

  /** The fields of the receipt for such a response. */
  predicate IsReceipt(r: Receipt, decoded: Decoded, price: string, resource: string, now: int) {
    && decoded.Response? && r.payer == decoded.payer && Some(r.txHash) == decoded.transaction
    && r.amount == price && r.resource == resource && r.timestamp == now
  }

  /**
   What is recorded, and what not: a decodable response that reports success and a transaction
   puts its receipt in front of the newest 99; anything else leaves the log alone.
   */
  lemma RecordedIs(log: Log, call: Call)
    ensures var d, after := call.decoded, Recorded(log, call);
      if d.Response? && d.success && d.transaction.Some? && d.transaction.value != "" then
        && after != [] && IsReceipt(after[0], d, call.price, call.resource, call.now)
        && after[1..] == if |log| < 100 then log else log[..99]
      else after == log
  {
  }

  datatype SettledEvent = SettledEvent(ts: int, payer: Option<string>, amount: string, resource: string, txHash: string)

  /** The KV namespace as one request sees it when nobody interleaves with it. */
  class Store {
    var receiptLog: Option<Log>
    var latestEvent: Option<SettledEvent>

    ghost function Contents(): Log
      reads this
    {
      if receiptLog.Some? then receiptLog.value else []
    }

    method RecordSettlement(decoded: Decoded, price: string, resource: string, now: int) returns (written: bool)
      modifies this
      ensures written <==>
        decoded.Response? && decoded.success && decoded.transaction.Some? && decoded.transaction.value != ""
      ensures Contents() == Recorded(old(Contents()), Call(decoded, price, resource, now))
      ensures !written ==> receiptLog == old(receiptLog) && latestEvent == old(latestEvent)
      ensures written ==>
        && IsReceipt(Contents()[0], decoded, price, resource, now)
        && Contents()[1..] == (if |old(Contents())| < 100 then old(Contents()) else old(Contents())[..99])
        && latestEvent == Some(SettledEvent(now, decoded.payer, price, resource, decoded.transaction.value))
    {
      if decoded.Undecodable? || !decoded.success || decoded.transaction.None? || decoded.transaction.value == "" {
        return false;
      }
      var receipt := Receipt(decoded.payer, price, resource, decoded.transaction.value, now);
      var log := if receiptLog.Some? then receiptLog.value else [];
      log := [receipt] + log;
      if |log| > LOG_MAX {
        log := log[..LOG_MAX];
      }
      receiptLog := Some(log);
      latestEvent := Some(SettledEvent(now, receipt.payer, price, resource, receipt.txHash));
      return true;
    }
  }
}
