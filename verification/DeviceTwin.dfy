/**
 The DeviceTwin Durable Object of src/device-twin.ts: the alarm chain, the tick, the seed
 reading and the ring buffer of readings. A Durable Object handles one event at a time; the
 contents of a reading are a parameter.
 */
module DeviceTwin {
  import opened Options

  const HISTORY_MAX: nat := 50
  const DEFAULT_TICK_MS: int := 60_000

  datatype Reading = Reading(number: nat, sample: int)

  /** The object's storage, and its pending alarm. */
  datatype State = State(latest: Option<Reading>, number: Option<nat>, history: Option<seq<Reading>>,
                         alarm: Option<int>)

  datatype Event =
    | Wake(now: int, fails: bool)                 // the constructor; reading the alarm may fail
    | Fire(now: int, sample: int, fails: bool)    // the alarm; the tick may fail
    | Read(sample: int)                           // getLatestReading

  /** `tickInterval`: the setting, if it is a number of at least 1000. */
  function TickInterval(setting: Option<int>): (ms: int)
    ensures ms >= 1000
  {
    if setting.Some? && setting.value >= 1000 then setting.value else DEFAULT_TICK_MS
  }

  function Keep(readings: seq<Reading>): seq<Reading> {
    if |readings| > HISTORY_MAX then readings[..HISTORY_MAX] else readings
  }

  function Tick(s: State, sample: int): State {
    var number := (if s.number.Some? then s.number.value else 0) + 1;
    var history := if s.history.Some? then s.history.value else [];
    var latest := Reading(number, sample);
    State(Some(latest), Some(number), Some(Keep([latest] + history)), s.alarm)
  }

  function Seed(s: State, sample: int): State {
    State(Some(Reading(0, sample)), Some(0), Some([Reading(0, sample)]), s.alarm)
  }

  function Next(s: State, e: Event, interval: int): State {
    match e
    case Wake(now, fails) => if fails || s.alarm.Some? then s else s.(alarm := Some(now + interval))
    case Fire(now, sample, fails) =>
      if s.alarm.None? then s
      else
        var scheduled := s.(alarm := Some(now + interval));
        if fails then scheduled else Tick(scheduled, sample)
    case Read(sample) => if s.latest.Some? then s else Seed(s, sample)
  }

  /**
   What `getHistory` may answer from this history: a prefix of at most 50 readings and at most
   `limit`, though one even for a smaller limit, and as long as that allows.
   */
  predicate IsAnswer(history: seq<Reading>, limit: real, readings: seq<Reading>) {
    && readings <= history && |readings| <= HISTORY_MAX && (|readings| as real <= limit || |readings| <= 1)
    && (history != [] ==> readings != [])
    && (|readings| < |history| && |readings| < HISTORY_MAX ==> limit < (|readings| + 1) as real)
  }

  function Run(s: State, events: seq<Event>, interval: int): State
    decreases |events|
  {
    if events == [] then s else Run(Next(s, events[0], interval), events[1..], interval)
  }

  /** The reading that a step stores. */
  function Stored(s: State, e: Event, interval: int): seq<Reading> {
    var t := Next(s, e, interval);
    if t.latest != s.latest && t.latest.Some? then [t.latest.value] else []
  }

  /** Every reading stored in a run, newest first. */
  function Trace(s: State, events: seq<Event>, interval: int): seq<Reading>
    decreases |events|
  {
    if events == [] then []
    else Trace(Next(s, events[0], interval), events[1..], interval) + Stored(s, events[0], interval)
  }

  const BLANK: State := State(None, None, None, None)

  // ----------------------------------------------------------------------- invariant

  /** Storage holds the newest 50 of these readings, which are numbered without a gap. */
  predicate Holds(s: State, trace: seq<Reading>) {
    if trace == [] then s.latest == None && s.number == None && s.history == None
    else
      && s.latest == Some(trace[0]) && s.number == Some(trace[0].number) && s.history == Some(Keep(trace))
      && forall i | 0 <= i < |trace| :: trace[i].number == trace[0].number - i
  }

  lemma StepHolds(s: State, e: Event, interval: int, trace: seq<Reading>)
    requires Holds(s, trace)
    ensures Holds(Next(s, e, interval), Stored(s, e, interval) + trace)
  {
    hide Keep;
    assert [] + trace == trace;
    if e.Fire? && s.alarm.Some? && !e.fails {
      var scheduled := s.(alarm := Some(e.now + interval));
      assert Holds(scheduled, trace);
      TickHolds(scheduled, e.sample, trace);
      assert Stored(s, e, interval) == [Tick(scheduled, e.sample).latest.value];
    } else if e.Read? && s.latest.None? {
      assert Stored(s, e, interval) == [Reading(0, e.sample)] && trace == [];
      KeepShort([Reading(0, e.sample)]);
      assert [Reading(0, e.sample)] + [] == [Reading(0, e.sample)];
    } else {
      assert Stored(s, e, interval) == [];
    }
  }

  lemma KeepShort(readings: seq<Reading>)
    requires |readings| <= HISTORY_MAX
    ensures Keep(readings) == readings
  {
  }

  lemma TickHolds(s: State, sample: int, trace: seq<Reading>)
    requires Holds(s, trace)
    ensures var t := Tick(s, sample);
      t.latest.Some? && t.latest != s.latest && Holds(t, [t.latest.value] + trace)
  {
    hide Keep;
    var t := Tick(s, sample);
    var latest := t.latest.value;
    var more := [latest] + trace;
    KeepKept([latest], trace);
    KeepShort([]);
    assert trace == [] ==> more == [latest] + [];
    forall i | 0 <= i < |more| ensures more[i].number == latest.number - i {
      if i > 0 { assert more[i] == trace[i - 1]; }
    }
  }

  lemma KeepKept(front: seq<Reading>, back: seq<Reading>)
    ensures Keep(front + Keep(back)) == Keep(front + back)
  {
  }

  lemma {:induction false} RunHolds(s: State, events: seq<Event>, interval: int, trace: seq<Reading>)
    requires Holds(s, trace)
    ensures Holds(Run(s, events, interval), Trace(s, events, interval) + trace)
    decreases |events|
  {
    hide Holds, Next, Stored;
    if events == [] {
      assert [] + trace == trace;
    } else {
      StepHolds(s, events[0], interval, trace);
      var stored := Stored(s, events[0], interval);
      var later := Trace(Next(s, events[0], interval), events[1..], interval);
      RunHolds(Next(s, events[0], interval), events[1..], interval, stored + trace);
      assert later + (stored + trace) == (later + stored) + trace;
    }
  }

  // -------------------------------------------------------------------- main results

  /**
   After any sequence of wake-ups, ticks, failed ticks and reads: the storage is empty, or
   `latest` is the newest reading, `history` is the newest 50 of all readings ever stored,
   `history[i].seq` is `seq - i`, and no number ever repeats.
   */
  lemma RingBuffer(events: seq<Event>, interval: int)
    ensures var s, trace := Run(BLANK, events, interval), Trace(BLANK, events, interval);
      && (trace == [] <==> s.latest.None? && s.number.None? && s.history.None?)
      && (trace != [] ==>
            && s.history.Some? && s.number.Some? && |s.history.value| > 0
            && s.history.value == (if |trace| < 50 then trace else trace[..50]) && s.latest == Some(s.history.value[0])
            && (forall i | 0 <= i < |s.history.value| :: s.history.value[i].number == s.number.value - i)
            && (forall i, j | 0 <= i < j < |trace| :: trace[i].number != trace[j].number))
  {
    hide Run, Trace;
    RunHolds(BLANK, events, interval, []);
    var trace := Trace(BLANK, events, interval);
    assert trace + [] == trace;
    if trace != [] { assert Keep(trace)[0] == trace[0]; }
  }

  /** So `getHistory` answers with the newest of all readings ever stored, as many as the limit allows. */
  lemma HistoryIsPrefix(events: seq<Event>, interval: int, limit: real, h: seq<Reading>)
    requires var s := Run(BLANK, events, interval);
      IsAnswer(if s.history.Some? then s.history.value else [], limit, h)
    ensures var trace := Trace(BLANK, events, interval);
      && h <= trace && |h| <= HISTORY_MAX
      && (trace != [] ==> |h| > 0)
      && (1.0 <= limit < 51.0 ==> |h| == if limit.Floor < |trace| then limit.Floor else |trace|)
  {
    hide Run, Trace;
    RunHolds(BLANK, events, interval, []);
    assert Trace(BLANK, events, interval) + [] == Trace(BLANK, events, interval);
  }

  /** The first event of a run that stores a reading is a tick. */
  predicate TickFirst(s: State, events: seq<Event>, interval: int)
    decreases |events|
  {
    events != [] &&
      if Stored(s, events[0], interval) == [] then TickFirst(Next(s, events[0], interval), events[1..], interval)
      else events[0].Fire?
  }

  lemma {:induction false} OldestIs(s: State, events: seq<Event>, interval: int)
    requires Holds(s, []) && Trace(s, events, interval) != []
    ensures var trace := Trace(s, events, interval); var oldest := trace[|trace| - 1].number;
      oldest == (if TickFirst(s, events, interval) then 1 else 0)
    decreases |events|
  {
    if Stored(s, events[0], interval) == [] {
      StepHolds(s, events[0], interval, []);
      OldestIs(Next(s, events[0], interval), events[1..], interval);
      var later := Trace(Next(s, events[0], interval), events[1..], interval);
      assert later + [] == later;
    }
  }

  /**
   Numbers start at 1, as the type's documentation says, exactly if a tick comes before the
   first read; a read that comes first seeds the history with number 0.
   */
  lemma StartsAtOne(events: seq<Event>, interval: int)
    requires Trace(BLANK, events, interval) != []
    ensures var trace := Trace(BLANK, events, interval);
      && (trace[|trace| - 1].number == 1 <==> TickFirst(BLANK, events, interval))
      && (trace[|trace| - 1].number == 0 <==> !TickFirst(BLANK, events, interval))
  {
    OldestIs(BLANK, events, interval);
  }

  /** Once an alarm has been set, one is pending for ever, whichever ticks fail. */
  lemma {:induction false} AlarmStays(s: State, events: seq<Event>, interval: int)
    requires s.alarm.Some?
    ensures Run(s, events, interval).alarm.Some?
    decreases |events|
  {
    if events != [] {
      AlarmStays(Next(s, events[0], interval), events[1..], interval);
    }
  }

  lemma AlarmAlwaysPending(before: seq<Event>, now: int, after: seq<Event>, interval: int)
    ensures Run(Next(Run(BLANK, before, interval), Wake(now, false), interval), after, interval).alarm.Some?
  {
    hide Run;
    AlarmStays(Next(Run(BLANK, before, interval), Wake(now, false), interval), after, interval);
  }

  // ---------------------------------------------------------------------- the object

  class DeviceTwin {
    const interval: int
    var latest: Option<Reading>
    var number: Option<nat>
    var history: Option<seq<Reading>>
    var alarm: Option<int>

    ghost function View(): State
      reads this
    {
      State(latest, number, history, alarm)
    }

    /** The object over the storage it finds. */
    constructor (s: State, setting: Option<int>, now: int, fails: bool)
      ensures interval == if setting.Some? && setting.value >= 1000 then setting.value else 60_000
      ensures View() == Next(s, Wake(now, fails), interval)
      ensures alarm == if s.alarm.Some? || fails then s.alarm else Some(now + interval)
      ensures latest == s.latest && number == s.number && history == s.history
    {
      interval := TickInterval(setting);
      latest, number, history := s.latest, s.number, s.history;
      alarm := if s.alarm.None? && !fails then Some(now + TickInterval(setting)) else s.alarm;
    }

    /** The alarm went off; the next one is set before anything else is tried. */
    method Alarm(now: int, sample: int, fails: bool)
      requires alarm.Some?
      modifies this
      ensures View() == Next(old(View()), Fire(now, sample, fails), interval)
      ensures alarm == Some(now + interval)
      ensures fails ==> latest == old(latest) && number == old(number) && history == old(history)
    {
      alarm := Some(now + interval);
      if !fails {
        TickOnce(sample);
      }
    }

    method TickOnce(sample: int)
      modifies this
      ensures View() == Tick(old(View()), sample) && alarm == old(alarm)
      ensures number == Some((if old(number).Some? then old(number).value else 0) + 1)
      ensures latest == Some(Reading(number.value, sample)) && history.Some? && history.value != []
      ensures var before := if old(history).Some? then old(history).value else [];
        history.value[0] == latest.value && history.value[1..] == if |before| < 50 then before else before[..49]
    {
      var n: nat := (if number.Some? then number.value else 0) + 1;
      var readings := if history.Some? then history.value else [];
      var newest := Reading(n, sample);
      readings := [newest] + readings;
      if |readings| > HISTORY_MAX {
        readings := readings[..HISTORY_MAX];
      }
      latest, number, history := Some(newest), Some(n), Some(readings);
    }

    method GetLatestReading(sample: int) returns (reading: Reading)
      modifies this
      ensures View() == Next(old(View()), Read(sample), interval)
      ensures latest == Some(reading) && alarm == old(alarm)
      ensures if old(latest).Some? then reading == old(latest).value && number == old(number) && history == old(history)
              else reading == Reading(0, sample) && number == Some(0) && history == Some([reading])
    {
      if latest.Some? {
        return latest.value;
      }
      reading := Reading(0, sample);
      latest, number, history := Some(reading), Some(0), Some([reading]);
    }

    method GetHistory(limit: real) returns (readings: seq<Reading>)
      ensures IsAnswer(if history.Some? then history.value else [], limit, readings)
    {
      var n := limit.Floor;
      var clamped := if n < 1 then 1 else if n > 50 then 50 else n;
      readings := if history.Some? then history.value else [];
      if clamped < |readings| {
        readings := readings[..clamped];
      }
    }
  }
}
