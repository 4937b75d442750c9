/**
 `enforceRateLimit` of src/paid-route.ts: a request must fit in the bucket of its IP and,
 when its proof names a payer, in the bucket of that payer.

 The two hits of one request are separate steps, so any number of requests may interleave
 between them, and alarms may fire at any point.
 */
module RateLimitGate {
  import opened Options
  import opened RateLimiter

  datatype BucketName = Ip(ip: string) | Payer(address: string)

  datatype Config = Config(window: int, ipQuota: int, payerQuota: int)

  /** `Number(value) || fallback`, for a configured whole number. */
  function Configured(value: Option<int>, fallback: int): int {
    if value.Some? && value.value != 0 then value.value else fallback
  }

  /** The configuration from RATE_LIMIT_WINDOW_S, IP_RATE_LIMIT_QUOTA and RATE_LIMIT_QUOTA. */
  function ConfigOf(seconds: Option<int>, ipQuota: Option<int>, payerQuota: Option<int>): Config {
    Config(Configured(seconds, 60) * 1000, Configured(ipQuota, 60), Configured(payerQuota, 10))
  }

  ghost predicate ValidConfig(c: Config) { c.window > 0 && c.ipQuota >= 1 && c.payerQuota >= 1 }

  predicate NotNegative(value: Option<int>) { value.None? || value.value >= 0 }

  /** A missing setting and zero are replaced, so only a negative one makes a configuration invalid. */
  lemma ConfigIsValidIff(seconds: Option<int>, ipQuota: Option<int>, payerQuota: Option<int>)
    ensures ValidConfig(ConfigOf(seconds, ipQuota, payerQuota))
       <==> NotNegative(seconds) && NotNegative(ipQuota) && NotNegative(payerQuota)
  {
  }

  /** Settings other than zero are taken as they are, seconds as milliseconds; else the defaults. */
  lemma ConfigFields(seconds: Option<int>, ipQuota: Option<int>, payerQuota: Option<int>)
    ensures var c := ConfigOf(seconds, ipQuota, payerQuota);
      && (seconds.Some? && seconds.value != 0 ==> c.window == 1000 * seconds.value)
      && (seconds == None || seconds == Some(0) ==> c.window == 60_000)
      && (ipQuota.Some? && ipQuota.value != 0 ==> c.ipQuota == ipQuota.value)
      && (ipQuota == None || ipQuota == Some(0) ==> c.ipQuota == 60)
      && (payerQuota.Some? && payerQuota.value != 0 ==> c.payerQuota == payerQuota.value)
      && (payerQuota == None || payerQuota == Some(0) ==> c.payerQuota == 10)
  {
  }

  function Quota(c: Config, name: BucketName): (q: nat)
    requires ValidConfig(c)
    ensures q >= 1
  {
    if name.Ip? then c.ipQuota else c.payerQuota
  }

  /** A request that its IP bucket let through. */
  datatype Request = Request(ip: string, payer: Option<string>, ipAt: int, status: Status)

  datatype Status = Waiting | Passed(at: int) | Refused

  datatype State = State(buckets: map<BucketName, Bucket>, requests: seq<Request>, clock: int)

  function BucketOf(s: State, name: BucketName): Bucket {
    if name in s.buckets then s.buckets[name] else EmptyBucket(s.clock)
  }

  datatype Step =
    | Arrive(ip: string, payer: Option<string>, time: int)
    | Continue(request: nat, time: int)
    | Wake(name: BucketName, time: int)

  function Answer(c: Config, s: State, name: BucketName, now: int): Decision
    requires ValidConfig(c)
  {
    EvaluateWindow(BucketOf(s, name).stored, now, c.window, Quota(c, name))
  }

  function UseSlot(c: Config, s: State, name: BucketName, now: int): State
    requires ValidConfig(c)
  {
    s.(buckets := s.buckets[name := HitBucket(BucketOf(s, name), now, c.window, Quota(c, name))], clock := now)
  }

  /** One step of the interleaved system. A step that is not possible changes nothing. */
  function Next(c: Config, s: State, step: Step): State
    requires ValidConfig(c)
  {
    match step
    case Arrive(ip, payer, now) =>
      var t := UseSlot(c, s, Ip(ip), now);
      if !Answer(c, s, Ip(ip), now).allowed then t
      else t.(requests := s.requests + [Request(ip, payer, now, if payer.None? then Passed(now) else Waiting)])
    case Continue(i, now) =>
      if i >= |s.requests| || s.requests[i].payer.None? || s.requests[i].status != Waiting then s.(clock := now)
      else
        var name := Payer(s.requests[i].payer.value);
        var status := if Answer(c, s, name, now).allowed then Passed(now) else Refused;
        UseSlot(c, s, name, now).(requests := s.requests[i := s.requests[i].(status := status)])
    case Wake(name, now) =>
      s.(buckets := s.buckets[name := AlarmBucket(BucketOf(s, name), now, c.window)], clock := now)
  }

  function RunGate(c: Config, s: State, steps: seq<Step>): State
    requires ValidConfig(c)
    decreases |steps|
  {
    if steps == [] then s else RunGate(c, Next(c, s, steps[0]), steps[1..])
  }

  ghost predicate InOrder(start: int, steps: seq<Step>)
    decreases |steps|
  {
    steps == [] || (steps[0].time >= start && InOrder(steps[0].time, steps[1..]))
  }

  // ----------------------------------------------------------------------- counting

  /** When the request used a slot of this bucket and was allowed, if it did. */
  function SlotTime(r: Request, name: BucketName): Option<int> {
    match name
    case Ip(ip) => if r.ip == ip then Some(r.ipAt) else None
    case Payer(p) => if r.payer == Some(p) && r.status.Passed? then Some(r.status.at) else None
  }

  function SlotsIn(rs: seq<Request>, name: BucketName, low: int, high: int): nat {
    if rs == [] then 0
    else SlotsIn(rs[..|rs| - 1], name, low, high) + SlotIn(rs[|rs| - 1], name, low, high)
  }

  function SlotIn(r: Request, name: BucketName, low: int, high: int): nat {
    var t := SlotTime(r, name);
    if t.Some? && low < t.value <= high then 1 else 0
  }

  /** Requests of an IP, or of a payer, that passed the whole gate inside an interval. */
  function PassedIn(rs: seq<Request>, name: BucketName, low: int, high: int): nat {
    if rs == [] then 0
    else
      var r := rs[|rs| - 1];
      PassedIn(rs[..|rs| - 1], name, low, high) + if r.status.Passed? then SlotIn(r, name, low, high) else 0
  }

  /** Allowed hits of a bucket are exactly the slots the requests used. */
  ghost predicate SlotsMatch(s: State, name: BucketName) {
    forall low, high :: SlotsIn(s.requests, name, low, high) == CountIn(BucketOf(s, name).ever, low, high)
  }

  ghost predicate GateInv(c: Config, s: State) {
    && ValidConfig(c)
    && (forall name :: Inv(BucketOf(s, name), c.window, Quota(c, name)) && BucketOf(s, name).clock <= s.clock)
    && (forall name :: SlotsMatch(s, name))
    && (forall i | 0 <= i < |s.requests| :: s.requests[i].payer.None? ==> s.requests[i].status.Passed?)
  }

  lemma {:induction false} SlotsAppend(rs: seq<Request>, r: Request, name: BucketName, low: int, high: int)
    ensures SlotsIn(rs + [r], name, low, high) == SlotsIn(rs, name, low, high) + SlotIn(r, name, low, high)
  {
    assert (rs + [r])[..|rs|] == rs;
  }

  lemma {:induction false} SlotsUpdate(rs: seq<Request>, i: nat, r: Request, name: BucketName, low: int, high: int)
    requires i < |rs|
    ensures SlotsIn(rs[i := r], name, low, high) + SlotIn(rs[i], name, low, high)
         == SlotsIn(rs, name, low, high) + SlotIn(r, name, low, high)
  {
    var last := |rs| - 1;
    if i < last {
      assert rs[i := r][..last] == rs[..last][i := r];
      SlotsUpdate(rs[..last], i, r, name, low, high);
    } else {
      assert rs[i := r][..last] == rs[..last];
    }
  }

  lemma CountAppend(ts: seq<int>, t: int, low: int, high: int)
    ensures CountIn(ts + [t], low, high) == CountIn(ts, low, high) + if low < t <= high then 1 else 0
  {
    assert (ts + [t])[..|ts|] == ts;
  }

  /** What a hit does to the bucket it goes to, and to no other. */
  lemma HitEffect(c: Config, s: State, name: BucketName, now: int, other: BucketName)
    requires GateInv(c, s) && now >= s.clock
    ensures var t := UseSlot(c, s, name, now);
      && Inv(BucketOf(t, other), c.window, Quota(c, other)) && BucketOf(t, other).clock <= now
      && BucketOf(t, other).ever == BucketOf(s, other).ever
          + if other == name && Answer(c, s, name, now).allowed then [now] else []
  {
    hide Inv, SlotsMatch;
    assert Inv(BucketOf(s, name), c.window, Quota(c, name));
    assert Inv(BucketOf(s, other), c.window, Quota(c, other));
    HitKeepsInv(BucketOf(s, name), now, c.window, Quota(c, name));
    AnswerIsNaive(BucketOf(s, name), now, c.window, Quota(c, name));
    if other !in s.buckets { EmptyInv(now, c.window, Quota(c, other)); }
  }

  lemma EmptyInv(clock: int, window: int, quota: nat)
    requires window > 0 && quota >= 1
    ensures Inv(EmptyBucket(clock), window, quota)
  {
  }

  lemma ArriveKeeps(c: Config, s: State, ip: string, payer: Option<string>, now: int)
    requires GateInv(c, s) && now >= s.clock
    ensures GateInv(c, Next(c, s, Arrive(ip, payer, now)))
  {
    hide Inv, SlotsMatch;
    var t := Next(c, s, Arrive(ip, payer, now));
    forall name ensures Inv(BucketOf(t, name), c.window, Quota(c, name)) && BucketOf(t, name).clock <= t.clock {
      HitEffect(c, s, Ip(ip), now, name);
    }
    forall name ensures SlotsMatch(t, name) {
      ArriveMatches(c, s, ip, payer, now, name);
    }
  }

  lemma ArriveMatches(c: Config, s: State, ip: string, payer: Option<string>, now: int, name: BucketName)
    requires GateInv(c, s) && now >= s.clock
    ensures SlotsMatch(Next(c, s, Arrive(ip, payer, now)), name)
  {
    hide Inv, EvaluateWindow, HitBucket;
    var t := Next(c, s, Arrive(ip, payer, now));
    HitEffect(c, s, Ip(ip), now, name);
    assert SlotsMatch(s, name);
    var allowed := Answer(c, s, Ip(ip), now).allowed;
    var r := Request(ip, payer, now, if payer.None? then Passed(now) else Waiting);
    forall low, high ensures SlotsIn(t.requests, name, low, high) == CountIn(BucketOf(t, name).ever, low, high) {
      OneMore(s, name, low, high);
      SlotsAppend(s.requests, r, name, low, high);
      CountAppend(BucketOf(s, name).ever, now, low, high);
    }
  }

  lemma OneMore(s: State, name: BucketName, low: int, high: int)
    requires SlotsMatch(s, name)
    ensures SlotsIn(s.requests, name, low, high) == CountIn(BucketOf(s, name).ever, low, high)
    ensures BucketOf(s, name).ever + [] == BucketOf(s, name).ever
  {
  }

  lemma ContinueMatches(c: Config, s: State, i: nat, now: int, name: BucketName)
    requires GateInv(c, s) && now >= s.clock
    requires i < |s.requests| && s.requests[i].payer.Some? && s.requests[i].status == Waiting
    ensures SlotsMatch(Next(c, s, Continue(i, now)), name)
  {
    hide Inv, EvaluateWindow, HitBucket;
    var t := Next(c, s, Continue(i, now));
    HitEffect(c, s, Payer(s.requests[i].payer.value), now, name);
    assert SlotsMatch(s, name);
    forall low, high ensures SlotsIn(t.requests, name, low, high) == CountIn(BucketOf(t, name).ever, low, high) {
      OneMore(s, name, low, high);
      SlotsUpdate(s.requests, i, t.requests[i], name, low, high);
      CountAppend(BucketOf(s, name).ever, now, low, high);
    }
  }

  lemma ContinueKeeps(c: Config, s: State, i: nat, now: int)
    requires GateInv(c, s) && now >= s.clock
    requires i < |s.requests| && s.requests[i].payer.Some? && s.requests[i].status == Waiting
    ensures GateInv(c, Next(c, s, Continue(i, now)))
  {
    hide Inv, SlotsMatch;
    var t := Next(c, s, Continue(i, now));
    forall name ensures Inv(BucketOf(t, name), c.window, Quota(c, name)) && BucketOf(t, name).clock <= t.clock {
      HitEffect(c, s, Payer(s.requests[i].payer.value), now, name);
    }
    forall name ensures SlotsMatch(t, name) {
      ContinueMatches(c, s, i, now, name);
    }
  }

  lemma WakeKeeps(c: Config, s: State, bucket: BucketName, now: int)
    requires GateInv(c, s) && now >= s.clock
    ensures GateInv(c, Next(c, s, Wake(bucket, now)))
  {
    hide Inv;
    var t := Next(c, s, Wake(bucket, now));
    assert Inv(BucketOf(s, bucket), c.window, Quota(c, bucket));
    AlarmKeepsInv(BucketOf(s, bucket), now, c.window, Quota(c, bucket));
    forall name
      ensures Inv(BucketOf(t, name), c.window, Quota(c, name)) && BucketOf(t, name).clock <= t.clock
        && SlotsMatch(t, name)
    {
      assert SlotsMatch(s, name) && Inv(BucketOf(s, name), c.window, Quota(c, name));
      if name !in s.buckets { EmptyInv(now, c.window, Quota(c, name)); }
      assert BucketOf(t, name).ever == BucketOf(s, name).ever;
    }
  }

  lemma IdleKeeps(c: Config, s: State, now: int)
    requires GateInv(c, s) && now >= s.clock
    ensures GateInv(c, s.(clock := now))
  {
    hide Inv;
    var t := s.(clock := now);
    forall name
      ensures Inv(BucketOf(t, name), c.window, Quota(c, name)) && BucketOf(t, name).clock <= t.clock
        && SlotsMatch(t, name)
    {
      assert SlotsMatch(s, name) && Inv(BucketOf(s, name), c.window, Quota(c, name));
      if name !in s.buckets { EmptyInv(now, c.window, Quota(c, name)); }
      assert BucketOf(t, name).ever == BucketOf(s, name).ever;
    }
  }

  lemma StepKeeps(c: Config, s: State, step: Step)
    requires GateInv(c, s) && step.time >= s.clock
    ensures GateInv(c, Next(c, s, step)) && Next(c, s, step).clock == step.time
  {
    hide GateInv;
    match step
    case Arrive(ip, payer, now) => ArriveKeeps(c, s, ip, payer, now);
    case Continue(i, now) =>
      if i >= |s.requests| || s.requests[i].payer.None? || s.requests[i].status != Waiting {
        IdleKeeps(c, s, now);
      } else {
        ContinueKeeps(c, s, i, now);
      }
    case Wake(name, now) => WakeKeeps(c, s, name, now);
  }

  lemma {:induction false} RunKeeps(c: Config, s: State, steps: seq<Step>)
    requires GateInv(c, s) && ValidConfig(c) && InOrder(s.clock, steps)
    ensures GateInv(c, RunGate(c, s, steps))
    decreases |steps|
  {
    hide GateInv, Next;
    if steps != [] {
      StepKeeps(c, s, steps[0]);
      RunKeeps(c, Next(c, s, steps[0]), steps[1..]);
    }
  }

  // ------------------------------------------------------------------- the quotas

  lemma {:induction false} PassedAreSlots(rs: seq<Request>, name: BucketName, low: int, high: int)
    ensures PassedIn(rs, name, low, high) <= SlotsIn(rs, name, low, high)
  {
    if rs != [] { PassedAreSlots(rs[..|rs| - 1], name, low, high); }
  }

  function Start(clock: int): State { State(map[], [], clock) }

  /**
   In every interleaving of requests and alarms: of one IP, at most `ipQuota` requests use a
   slot in any window-long interval, and of one payer at most `payerQuota`; so no more pass
   the gate. Requests that the payer bucket refused still count against their IP.
   */
  lemma GateQuotas(c: Config, clock: int, steps: seq<Step>, ip: string, payer: string, t: int)
    requires ValidConfig(c) && InOrder(clock, steps)
    ensures var rs := RunGate(c, Start(clock), steps).requests;
      && PassedIn(rs, Ip(ip), t - c.window, t) <= SlotsIn(rs, Ip(ip), t - c.window, t) <= c.ipQuota
      && PassedIn(rs, Payer(payer), t - c.window, t) <= SlotsIn(rs, Payer(payer), t - c.window, t) <= c.payerQuota
  {
    hide Next, GateInv;
    StartKeeps(c, clock);
    RunKeeps(c, Start(clock), steps);
    BucketQuota(c, RunGate(c, Start(clock), steps), Ip(ip), t);
    BucketQuota(c, RunGate(c, Start(clock), steps), Payer(payer), t);
  }

  lemma BucketQuota(c: Config, s: State, name: BucketName, t: int)
    requires GateInv(c, s)
    ensures PassedIn(s.requests, name, t - c.window, t) <= SlotsIn(s.requests, name, t - c.window, t) <= Quota(c, name)
  {
    hide Spaced, Ascending, Pruned;
    assert SlotsMatch(s, name) && Inv(BucketOf(s, name), c.window, Quota(c, name));
    SpacedBound(BucketOf(s, name).ever, t, c.window, Quota(c, name));
    PassedAreSlots(s.requests, name, t - c.window, t);
  }

  lemma StartKeeps(c: Config, clock: int)
    requires ValidConfig(c)
    ensures GateInv(c, Start(clock))
  {
    hide Inv, SlotsMatch;
    forall name ensures Inv(BucketOf(Start(clock), name), c.window, Quota(c, name)) && SlotsMatch(Start(clock), name) {
      EmptyInv(clock, c.window, Quota(c, name));
      StartMatches(clock, name);
    }
  }

  lemma StartMatches(clock: int, name: BucketName)
    ensures SlotsMatch(Start(clock), name)
  {
  }

  /** The recent hits of a history are those in the window. */
  lemma {:induction false} FreshCount(ts: seq<int>, low: int, high: int)
    requires forall i | 0 <= i < |ts| :: ts[i] <= high
    ensures |Fresh(ts, low)| == CountIn(ts, low, high)
  {
    if ts != [] {
      var n := |ts| - 1;
      FreshCount(ts[..n], low, high);
      FreshConcat(ts[..n], [ts[n]], low);
      assert ts == ts[..n] + [ts[n]];
    }
  }

  /** A bucket lets a hit through exactly if the slots used in its window are below its quota. */
  lemma BucketAnswers(c: Config, s: State, name: BucketName, now: int)
    requires GateInv(c, s) && now >= s.clock
    ensures Answer(c, s, name, now).allowed <==> SlotsIn(s.requests, name, now - c.window, now) < Quota(c, name)
  {
    hide EvaluateWindow, Spaced, Pruned, Fresh;
    var b := BucketOf(s, name);
    assert SlotsMatch(s, name) && Inv(b, c.window, Quota(c, name)) && b.clock <= s.clock;
    AnswerIsNaive(b, now, c.window, Quota(c, name));
    forall i | 0 <= i < |b.ever| ensures b.ever[i] <= now {
      assert b.ever[i] <= b.ever[|b.ever| - 1] || i == |b.ever| - 1;
    }
    FreshCount(b.ever, now - c.window, now);
  }

  /**
   After every interleaving: an IP is let through exactly if fewer than `ipQuota` of its
   requests used a slot in the last window, and a payer exactly if fewer than `payerQuota` did.
   */
  lemma RefusesExactlyAtQuota(c: Config, clock: int, steps: seq<Step>, ip: string, payer: string, now: int)
    requires ValidConfig(c) && InOrder(clock, steps) && now >= RunGate(c, Start(clock), steps).clock
    ensures var s := RunGate(c, Start(clock), steps);
      && (Answer(c, s, Ip(ip), now).allowed <==> SlotsIn(s.requests, Ip(ip), now - c.window, now) < c.ipQuota)
      && (Answer(c, s, Payer(payer), now).allowed
          <==> SlotsIn(s.requests, Payer(payer), now - c.window, now) < c.payerQuota)
  {
    hide Next, GateInv, Answer;
    StartKeeps(c, clock);
    RunKeeps(c, Start(clock), steps);
    BucketAnswers(c, RunGate(c, Start(clock), steps), Ip(ip), now);
    BucketAnswers(c, RunGate(c, Start(clock), steps), Payer(payer), now);
  }

  // -------------------------------------------------------- one request on its own

  datatype Outcome = Continues | TooMany(retryAfter: int)

  function Names(ip: string, payer: Option<string>): seq<BucketName> {
    [Ip(ip)] + if payer.Some? then [Payer(payer.value)] else []
  }

  /** Hitting the buckets in turn, at the given times, until one refuses. */
  function HitInTurn(c: Config, s: State, names: seq<BucketName>, times: seq<int>): (State, Outcome)
    requires ValidConfig(c) && |times| == |names|
    decreases |names|
  {
    if names == [] then (s, Continues)
    else
      var d := Answer(c, s, names[0], times[0]);
      var t := UseSlot(c, s, names[0], times[0]);
      if d.allowed then HitInTurn(c, t, names[1..], times[1..]) else (t, TooMany(d.retryAfter))
  }

  /** The gate for one request that nobody interleaves with. */
  class Gate {
    var buckets: map<BucketName, Bucket>
    ghost var requests: seq<Request>
    ghost var clock: int

    ghost function Contents(): State
      reads this
    {
      State(buckets, requests, clock)
    }

    method Enforce(c: Config, ip: string, payer: Option<string>, times: seq<int>) returns (outcome: Outcome)
      requires ValidConfig(c) && |times| == |Names(ip, payer)|
      modifies this
      ensures (Contents(), outcome) == HitInTurn(c, old(Contents()), Names(ip, payer), times)
    {
      var names := [Ip(ip)];
      if payer.Some? {
        names := names + [Payer(payer.value)];
      }
      assert names == Names(ip, payer);
      for i := 0 to |names|
        invariant HitInTurn(c, Contents(), names[i..], times[i..]) == HitInTurn(c, old(Contents()), names, times)
      {
        assert names[i..][0] == names[i] && names[i..][1..] == names[i + 1..] && times[i..][1..] == times[i + 1..];
        var b := if names[i] in buckets then buckets[names[i]] else EmptyBucket(0);
        var d := EvaluateWindow(b.stored, times[i], c.window, Quota(c, names[i]));
        buckets := buckets[names[i] := HitBucket(b, times[i], c.window, Quota(c, names[i]))];
        clock := times[i];
        if !d.allowed {
          return TooMany(d.retryAfter);
        }
      }
      return Continues;
    }
  }

  /** That method is one schedule of the interleaved system, and agrees with it on who passes. */
  lemma EnforceIsSchedule(c: Config, s: State, ip: string, payer: Option<string>, times: seq<int>)
    requires ValidConfig(c) && |times| == |Names(ip, payer)|
    ensures var (after, outcome) := HitInTurn(c, s, Names(ip, payer), times);
      var arrived := Next(c, s, Arrive(ip, payer, times[0]));
      var end := if |times| == 1 || |arrived.requests| == |s.requests| then arrived
                 else Next(c, arrived, Continue(|s.requests|, times[1]));
      && end.buckets == after.buckets
      && (outcome == Continues <==> |end.requests| == |s.requests| + 1 && end.requests[|s.requests|].status.Passed?)
  {
    hide EvaluateWindow, HitBucket;
    var names := Names(ip, payer);
    var arrived := Next(c, s, Arrive(ip, payer, times[0]));
    var t := UseSlot(c, s, Ip(ip), times[0]);
    assert arrived.buckets == t.buckets && arrived.clock == t.clock;
    if payer.None? {
      assert names[1..] == [] && times[1..] == [];
    } else {
      var name := Payer(payer.value);
      assert names[1..] == [name] && times[1..] == [times[1]];
      assert Answer(c, arrived, name, times[1]) == Answer(c, t, name, times[1]);
      assert names[1..][1..] == [] && times[1..][1..] == [];
      var d := Answer(c, t, name, times[1]);
      assert HitInTurn(c, t, [name], [times[1]])
          == (UseSlot(c, t, name, times[1]), if d.allowed then Continues else TooMany(d.retryAfter));
      assert UseSlot(c, arrived, name, times[1]).buckets == UseSlot(c, t, name, times[1]).buckets;
      if Answer(c, s, Ip(ip), times[0]).allowed {
        assert arrived.requests[|s.requests|] == Request(ip, payer, times[0], Waiting);
      }
    }
  }

  /** A hit uses no slot of another bucket. */
  lemma OtherBucket(c: Config, s: State, name: BucketName, now: int, other: BucketName, later: int)
    requires ValidConfig(c) && other != name
    ensures Answer(c, UseSlot(c, s, name, now), other, later) == Answer(c, s, other, later)
  {
    hide EvaluateWindow, HitBucket;
  }

  /**
   A request that nobody interleaves with continues exactly if its IP has used fewer than
   `ipQuota` slots in the last window and, if it names a payer, the payer fewer than
   `payerQuota`.
   */
  lemma ContinuesIff(c: Config, s: State, ip: string, payer: Option<string>, times: seq<int>)
    requires ValidConfig(c) && GateInv(c, s) && |times| == |Names(ip, payer)|
    requires forall k | 0 <= k < |times| :: s.clock <= times[k]
    ensures HitInTurn(c, s, Names(ip, payer), times).1 == Continues <==>
      && SlotsIn(s.requests, Ip(ip), times[0] - c.window, times[0]) < c.ipQuota
      && (payer.Some? ==> SlotsIn(s.requests, Payer(payer.value), times[1] - c.window, times[1]) < c.payerQuota)
  {
    hide GateInv, Answer, UseSlot;
    var names := Names(ip, payer);
    BucketAnswers(c, s, Ip(ip), times[0]);
    var t := UseSlot(c, s, Ip(ip), times[0]);
    if payer.None? {
      assert names[1..] == [] && times[1..] == [];
    } else {
      var name := Payer(payer.value);
      BucketAnswers(c, s, name, times[1]);
      OtherBucket(c, s, Ip(ip), times[0], name, times[1]);
      assert names[1..] == [name] && times[1..] == [times[1]];
      assert names[1..][1..] == [] && times[1..][1..] == [];
      assert HitInTurn(c, t, [name], [times[1]])
          == (UseSlot(c, t, name, times[1]),
              if Answer(c, t, name, times[1]).allowed then Continues
              else TooMany(Answer(c, t, name, times[1]).retryAfter));
    }
  }
}
