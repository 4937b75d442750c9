/**
 What the feed keeps in every run: no settlement is shown twice or out of order, nothing
 that is sent is dropped, and the latest event is shown once a poll has read it.
 */
module FeedRuns {
  import opened Options
  import opened Feed

  const FRESH: State := State([], None, Page(None, []))

  // ----------------------------------------------------------------------- invariant

  /** The page after everything that was sent has arrived. */
  function Drain(p: Page, q: seq<Message>): Page
    decreases |q|
  {
    if q == [] then p else Drain(Receive(p, q[0]), q[1..])
  }

  /** The page will show every settlement that was sent: its own check finds nothing to drop. */
  predicate AllNew(p: Page, q: seq<Message>)
    decreases |q|
  {
    q == [] || ((q[0].Settlement? ==> IsNew(p, q[0])) && AllNew(Receive(p, q[0]), q[1..]))
  }

  predicate Increasing(shown: seq<int>) { forall i, j | 0 <= i < j < |shown| :: shown[i] < shown[j] }

  predicate PageOk(p: Page, puts: seq<int>) {
    && Increasing(p.shown)
    && (forall k | 0 <= k < |p.shown| :: p.cursor.Some? && p.shown[k] <= p.cursor.value)
    && (forall ts | ts in p.shown :: ts in puts)
  }

  /** `Reconnect` is the last message of a closed stream, and of no other. */
  predicate QueueOk(s: Stream) {
    && (s.closed ==> s.queue != [])
    && forall k | 0 <= k < |s.queue| :: s.queue[k].Reconnect? <==> s.closed && k == |s.queue| - 1
  }

  predicate Sent(q: seq<Message>, puts: seq<int>) {
    forall k | 0 <= k < |q| :: q[k].Settlement? ==> q[k].ts in puts
  }

  /** Page and stream agree, once everything sent has arrived. */
  predicate InStep(p: Page, s: Stream) {
    var d := Drain(p, s.queue);
    && AllNew(p, s.queue) && d.cursor == Some(s.cursor)
    && (s.cursor == s.start || (s.start < s.cursor && s.cursor in d.shown))
  }

  predicate Inv(s: State) {
    && PageOk(s.page, s.puts)
    && (s.stream.Some? ==>
          InStep(s.page, s.stream.value) && QueueOk(s.stream.value) && Sent(s.stream.value.queue, s.puts))
  }

  lemma {:induction false} DrainAppend(p: Page, q: seq<Message>, m: Message)
    ensures Drain(p, q + [m]) == Receive(Drain(p, q), m)
    ensures AllNew(p, q + [m]) <==> AllNew(p, q) && (m.Settlement? ==> IsNew(Drain(p, q), m))
    decreases |q|
  {
    if q == [] {
      assert [] + [m] == [m] && [m][1..] == [];
    } else {
      DrainAppend(Receive(p, q[0]), q[1..], m);
      assert (q + [m])[1..] == q[1..] + [m];
    }
  }

  lemma SendKeeps(p: Page, s: Stream, m: Message, puts: seq<int>)
    requires InStep(p, s) && QueueOk(s) && Sent(s.queue, puts) && !s.closed && (m.Issue? || m.Reconnect?)
    ensures var t := s.(queue := s.queue + [m], closed := m.Reconnect?);
      InStep(p, t) && QueueOk(t) && Sent(t.queue, puts)
  {
    hide Drain, AllNew;
    DrainAppend(p, s.queue, m);
  }

  lemma PollKeeps(p: Page, s: Stream, latest: Option<int>, puts: seq<int>)
    requires InStep(p, s) && QueueOk(s) && Sent(s.queue, puts) && (latest.Some? ==> latest.value in puts)
    ensures var t := Poll(s, latest); InStep(p, t) && QueueOk(t) && Sent(t.queue, puts)
  {
    hide Drain, AllNew;
    if latest.Some? { DrainAppend(p, s.queue, Settlement(latest.value)); }
  }

  lemma OpenKeeps(p: Page, latest: Option<int>, now: int, puts: seq<int>)
    ensures var t := OpenStream(p.cursor, latest, now); InStep(p, t) && QueueOk(t) && Sent(t.queue, puts)
  {
    var t := OpenStream(p.cursor, latest, now);
    assert t.queue[1..] == [];
  }

  lemma StepKeeps(s: State, e: Event)
    requires Inv(s)
    ensures Inv(Next(s, e))
  {
    hide InStep, QueueOk, PageOk, Sent;
    match e
    case Put(ts) => PutKeeps(s, ts);
    case Open(read, now) => OpenKeeps(s.page, Read(s.puts, read), now, s.puts);
    case PollKv(read) => if s.stream.Some? { PollKeeps(s.page, s.stream.value, Read(s.puts, read), s.puts); }
    case PollFails => if s.stream.Some? && !s.stream.value.closed { SendKeeps(s.page, s.stream.value, Issue, s.puts); }
    case PlannedClose =>
      if s.stream.Some? && !s.stream.value.closed { SendKeeps(s.page, s.stream.value, Reconnect, s.puts); }
    case Deliver => if s.stream.Some? && s.stream.value.queue != [] { DeliverKeeps(s, s.stream.value); }
    case Break =>
  }

  lemma PutKeeps(s: State, ts: int)
    requires Inv(s)
    ensures Inv(s.(puts := s.puts + [ts]))
  {
    hide InStep, QueueOk;
    PutKeepsPage(s.page, s.puts, ts);
  }

  lemma PutKeepsPage(p: Page, puts: seq<int>, ts: int)
    requires PageOk(p, puts)
    ensures PageOk(p, puts + [ts])
  {
    forall t | t in p.shown ensures t in puts + [ts] {
      assert t in puts;
    }
  }

  lemma FreshOk()
    ensures Inv(FRESH)
  {
  }

  lemma DeliverKeeps(s: State, st: Stream)
    requires Inv(s) && s.stream == Some(st) && st.queue != []
    ensures Inv(Next(s, Deliver))
  {
  }

  lemma {:induction false} RunKeeps(s: State, events: seq<Event>)
    requires Inv(s)
    ensures Inv(Run(s, events))
    decreases |events|
  {
    hide Inv, Next;
    if events != [] {
      StepKeeps(s, events[0]);
      RunKeeps(Next(s, events[0]), events[1..]);
    }
  }

  // ------------------------------------------------------------------- main results

  /**
   Whatever happens, the page shows settlements in strictly increasing order of time, so
   none twice, and only settlements that were recorded.
   */
  lemma ShownOnce(events: seq<Event>, i: nat, j: nat)
    ensures var s := Run(FRESH, events);
      && (i < j < |s.page.shown| ==> s.page.shown[i] < s.page.shown[j])
      && (i < |s.page.shown| ==> s.page.shown[i] in s.puts)
  {
    hide Run;
    RunKeeps(FRESH, events);
  }

  function Times(q: seq<Message>): seq<int> {
    if q == [] then [] else (if q[0].Settlement? then [q[0].ts] else []) + Times(q[1..])
  }

  lemma {:induction false} AllNewShows(p: Page, q: seq<Message>)
    requires AllNew(p, q)
    ensures Drain(p, q).shown == p.shown + Times(q)
    decreases |q|
  {
    if q != [] { AllNewShows(Receive(p, q[0]), q[1..]); }
  }

  /** What the server sends on the open stream, the page shows: nothing, and in that order. */
  lemma NothingDropped(events: seq<Event>)
    ensures var s := Run(FRESH, events);
      s.stream.Some? ==> Drain(s.page, s.stream.value.queue).shown == s.page.shown + Times(s.stream.value.queue)
  {
    hide Run;
    RunKeeps(FRESH, events);
    var s := Run(FRESH, events);
    if s.stream.Some? { AllNewShows(s.page, s.stream.value.queue); }
  }

  function Deliveries(events: seq<Event>): nat {
    if events == [] then 0 else (if events[0].Deliver? then 1 else 0) + Deliveries(events[1..])
  }

  /** The settlement is shown, or among the first k messages under way. */
  predicate OnItsWay(s: State, ts: int, k: nat) {
    || ts in s.page.shown
    || (s.stream.Some? && k <= |s.stream.value.queue| && ts in Drain(s.page, s.stream.value.queue[..k]).shown)
  }

  lemma {:induction false} DrainGrows(p: Page, q: seq<Message>, ts: int)
    requires ts in p.shown
    ensures ts in Drain(p, q).shown
    decreases |q|
  {
    if q != [] { DrainGrows(Receive(p, q[0]), q[1..], ts); }
  }

  lemma OnItsWayStep(s: State, e: Event, ts: int, k: nat)
    requires Inv(s) && OnItsWay(s, ts, k) && !e.Break?
    ensures OnItsWay(Next(s, e), ts, if e.Deliver? && k > 0 then k - 1 else k)
  {
    hide PageOk, InStep, Sent, AllNew, Drain;
    if ts in s.page.shown {
    } else if e.Deliver? {
      DeliveredOnItsWay(s, ts, k);
    } else {
      assert Next(s, e).stream.value.queue[..k] == s.stream.value.queue[..k];
    }
  }

  lemma DeliveredOnItsWay(s: State, ts: int, k: nat)
    requires Inv(s) && OnItsWay(s, ts, k) && ts !in s.page.shown
    ensures k > 0 && OnItsWay(Next(s, Deliver), ts, k - 1)
  {
    hide PageOk, InStep, Sent, AllNew;
    var q := s.stream.value.queue;
    assert Drain(s.page, q[..0]) == s.page;
    var first := q[..k];
    assert first[0] == q[0] && first[1..] == q[1..][..k - 1];
    assert Drain(s.page, first) == Drain(Receive(s.page, q[0]), first[1..]);
    if q[0].Reconnect? { assert |q| == 1 && first[1..] == []; }
  }

  lemma {:induction false} Arrives(s: State, events: seq<Event>, ts: int, k: nat)
    requires Inv(s) && OnItsWay(s, ts, k) && Break !in events && Deliveries(events) >= k
    ensures ts in Run(s, events).page.shown
    decreases |events|
  {
    hide Inv, Next;
    if events == [] {
      assert ts in s.page.shown by { if s.stream.Some? { assert s.stream.value.queue[..0] == []; } }
    } else {
      StepKeeps(s, events[0]);
      OnItsWayStep(s, events[0], ts, k);
      Arrives(Next(s, events[0]), events[1..], ts, if events[0].Deliver? && k > 0 then k - 1 else k);
    }
  }

  predicate ExactlyOnce(shown: seq<int>, ts: int) {
    exists k :: 0 <= k < |shown| && shown[k] == ts && forall j | 0 <= j < |shown| && j != k :: shown[j] != ts
  }

  lemma OnlyOnce(s: State, ts: int)
    requires Inv(s) && ts in s.page.shown
    ensures ExactlyOnce(s.page.shown, ts)
  {
    hide InStep, QueueOk, Sent;
    var shown := s.page.shown;
    var k :| 0 <= k < |shown| && shown[k] == ts;
    assert Increasing(shown);
    assert forall j | 0 <= j < |shown| && j != k :: shown[j] != ts;
  }

  /** The settlement is not shown or under way, and both cursors have passed it. */
  predicate Passed(s: State, ts: int) {
    if s.stream.Some? then ts !in Drain(s.page, s.stream.value.queue).shown && ts <= s.stream.value.cursor
    else ts !in s.page.shown && s.page.cursor.Some? && ts <= s.page.cursor.value
  }

  lemma PassedStep(s: State, e: Event, ts: int)
    requires Inv(s) && Passed(s, ts) && !e.Break?
    ensures Passed(Next(s, e), ts)
  {
    hide PageOk, Sent, AllNew;
    if s.stream.Some? {
      var st := s.stream.value;
      match e
      case PollKv(read) =>
        var latest := Read(s.puts, read);
        if latest.Some? { DrainAppend(s.page, st.queue, Settlement(latest.value)); }
      case PollFails => DrainAppend(s.page, st.queue, Issue);
      case PlannedClose => DrainAppend(s.page, st.queue, Reconnect);
      case Deliver =>
        if st.queue != [] {
          var rest := st.queue[1..];
          assert Drain(s.page, st.queue) == Drain(Receive(s.page, st.queue[0]), rest);
          assert st.queue[0].Reconnect? ==> rest == [] && Drain(s.page, []) == s.page;
        }
      case _ =>
    } else if e.Open? {
      var greeting := [Connected(s.page.cursor.value)];
      assert greeting[1..] == [] && Drain(s.page, []) == s.page;
      assert Drain(s.page, greeting) == Drain(Receive(s.page, greeting[0]), greeting[1..]);
    }
  }

  lemma {:induction false} PassedRun(s: State, events: seq<Event>, ts: int)
    requires Inv(s) && Passed(s, ts) && Break !in events
    ensures ts !in Run(s, events).page.shown
    decreases |events|
  {
    hide Inv, Next;
    if events == [] {
      if s.stream.Some? && ts in s.page.shown { DrainGrows(s.page, s.stream.value.queue, ts); }
    } else {
      StepKeeps(s, events[0]);
      PassedStep(s, events[0], ts);
      PassedRun(Next(s, events[0]), events[1..], ts);
    }
  }

  /** After a poll that reads it, a settlement is on its way, or the stream has passed it. */
  lemma PollDecides(s: State, version: nat)
    requires Inv(s) && s.stream.Some? && !s.stream.value.closed && version < |s.puts|
    ensures var st, ts, t := s.stream.value, s.puts[version], Next(s, PollKv(Some(version)));
      && t.stream.Some? && |t.stream.value.queue| <= |st.queue| + 1
      && (if ts > st.cursor || ts in s.page.shown + Times(st.queue) then OnItsWay(t, ts, |t.stream.value.queue|)
          else Passed(t, ts))
  {
    hide PageOk, QueueOk, Sent, Drain, AllNew, Times;
    var st, ts, t := s.stream.value, s.puts[version], Next(s, PollKv(Some(version)));
    var q := t.stream.value.queue;
    AllNewShows(s.page, st.queue);
    DrainAppend(s.page, st.queue, Settlement(ts));
    assert q[..|q|] == q;
  }

  /**
   Any value of `latest_event` that a poll of the open stream reads is shown exactly once, as
   soon as the stream has delivered what it sent and unless it breaks before, if and only if
   it is newer than the stream's cursor or the stream or an earlier one had already sent it.
   A write with an earlier time than one already seen is thus never shown.
   */
  lemma FreshPollShows(before: seq<Event>, version: nat, after: seq<Event>)
    requires var s := Run(FRESH, before);
      && s.stream.Some? && !s.stream.value.closed && version < |s.puts|
      && Deliveries(after) >= |s.stream.value.queue| + 1
    requires Break !in after
    ensures var s := Run(FRESH, before);
      var st, ts := s.stream.value, s.puts[version];
      ExactlyOnce(Run(Next(s, PollKv(Some(version))), after).page.shown, ts)
      <==> ts > st.cursor || ts in s.page.shown + Times(st.queue)
  {
    hide Run, Inv, OnItsWay, Passed, Next, Times;
    FreshOk();
    RunKeeps(FRESH, before);
    var s := Run(FRESH, before);
    var ts, t := s.puts[version], Next(s, PollKv(Some(version)));
    StepKeeps(s, PollKv(Some(version)));
    PollDecides(s, version);
    RunKeeps(t, after);
    if ts > s.stream.value.cursor || ts in s.page.shown + Times(s.stream.value.queue) {
      Arrives(t, after, ts, |t.stream.value.queue|);
      OnlyOnce(Run(t, after), ts);
    } else {
      PassedRun(t, after, ts);
    }
  }

  // ------------------------------------------------------------------- what is missed

  /** Some poll of the run reads this value. */
  predicate WasRead(s: State, events: seq<Event>, ts: int)
    decreases |events|
  {
    events != [] &&
    ((events[0].PollKv? && Read(s.puts, events[0].read) == Some(ts)) || WasRead(Next(s, events[0]), events[1..], ts))
  }

  predicate Unseen(s: State, ts: int) {
    && ts !in s.page.shown
    && (s.stream.Some? ==> forall k | 0 <= k < |s.stream.value.queue| :: s.stream.value.queue[k] != Settlement(ts))
  }

  lemma {:induction false} UnseenRun(s: State, events: seq<Event>, ts: int)
    requires Unseen(s, ts) && !WasRead(s, events, ts)
    ensures ts !in Run(s, events).page.shown
    decreases |events|
  {
    if events != [] { UnseenRun(Next(s, events[0]), events[1..], ts); }
  }

  /** An event that no poll reads, because it was overwritten before, is never shown. */
  lemma NeverReadNeverShown(events: seq<Event>, ts: int)
    requires !WasRead(FRESH, events, ts)
    ensures ts !in Run(FRESH, events).page.shown
  {
    hide Run, WasRead;
    UnseenRun(FRESH, events, ts);
  }

  /** The input: the first of two writes, with the only poll after the second. */
  lemma OverwrittenInput(s: State, first: int, second: int)
    requires first != second && s.stream.Some? && !s.stream.value.closed
    ensures var poll := PollKv(Some(|s.puts| + 1));
      && first in Run(s, [Put(first), Put(second), poll]).puts
      && !WasRead(s, [Put(first), Put(second), poll], first)
  {
    var poll := PollKv(Some(|s.puts| + 1));
    var t := Next(Next(s, Put(first)), Put(second));
    assert t.puts == s.puts + [first] + [second] && t.puts[|s.puts| + 1] == second && t.puts[|s.puts|] == first;
    assert [Put(first), Put(second), poll][1..] == [Put(second), poll] && [Put(second), poll][1..] == [poll];
    assert [poll][1..] == [];
    assert !WasRead(t, [poll], first) && Run(t, [poll]) == Next(t, poll);
  }

  /** The end of the planned lifetime is the last thing a stream sends; polls after it send nothing. */
  lemma CloseIsLast(s: State, read: Option<nat>)
    requires s.stream.Some? && !s.stream.value.closed
    ensures var st, t := s.stream.value, Next(s, PlannedClose);
      && t == s.(stream := Some(st.(closed := true, queue := st.queue + [Reconnect])))
      && Next(t, PollKv(read)) == t && Next(t, PollFails) == t && Next(t, PlannedClose) == t
  {
  }

  /** Once that has arrived, the page has no stream, and opens the next one where it stands. */
  lemma {:induction false} ReconnectResumes(s: State, n: nat, read: Option<nat>, now: int)
    requires s.stream.Some? && s.page.cursor.Some? && n == |s.stream.value.queue| > 0
    requires forall k | 0 <= k < n :: s.stream.value.queue[k].Reconnect? <==> k == n - 1
    ensures var t := Run(s, seq(n, k => Deliver));
      && t.stream == None && t.page.cursor.Some?
      && Next(t, Open(read, now)).stream == Some(OpenStream(t.page.cursor, None, now))
      && OpenStream(t.page.cursor, None, now).start == t.page.cursor.value
    decreases n
  {
    var t := Next(s, Deliver);
    var delivers := seq(n, k => Deliver);
    assert delivers[0] == Deliver && delivers[1..] == seq(n - 1, k => Deliver);
    if n > 1 {
      ReconnectResumes(t, n - 1, read, now);
    } else {
      assert Run(t, []) == t;
    }
  }
}
