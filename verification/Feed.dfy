/**
 The live settlement feed of src/demo.ts: the cursor of the server's stream, the cursor of
 the page, and everything that can happen between them.

 Timestamps are integers (ISO-8601 UTC strings of one length sort as time). KV reads may be
 stale or fail, streams are closed on schedule or break, and what was sent but not received
 when a stream breaks is lost. The page has at most one stream open.
 */
module Feed {
  import opened Options

  datatype Message = Connected(cursor: int) | Settlement(ts: int) | Issue | Reconnect

  /** `start` is where the stream began to read. */
  datatype Stream = Stream(start: int, cursor: int, closed: bool, queue: seq<Message>)

  datatype Page = Page(cursor: Option<int>, shown: seq<int>)

  /** `puts` are the values `latest_event` has had. */
  datatype State = State(puts: seq<int>, stream: Option<Stream>, page: Page)

  datatype Event =
    | Put(ts: int)
    | Open(read: Option<nat>, now: int)
    | PollKv(read: Option<nat>)
    | PollFails
    | PlannedClose
    | Deliver
    | Break

  // ------------------------------------------------------------------------- server

  /** `sseStartCursor`. */
  function StartCursor(since: Option<int>, latest: Option<int>, now: int): int {
    if since.Some? then since.value else if latest.Some? then latest.value else now
  }

  function OpenStream(since: Option<int>, latest: Option<int>, now: int): Stream {
    var cursor := StartCursor(since, latest, now);
    Stream(cursor, cursor, false, [Connected(cursor)])
  }

  function Send(s: Stream, m: Message): Stream { if s.closed then s else s.(queue := s.queue + [m]) }

  /** A poll: only an event strictly newer than the cursor is sent. */
  function Poll(s: Stream, latest: Option<int>): Stream {
    if !s.closed && latest.Some? && latest.value > s.cursor
    then s.(cursor := latest.value, queue := s.queue + [Settlement(latest.value)])
    else s
  }

  function Finish(s: Stream): Stream { Send(s, Reconnect).(closed := true) }

  // --------------------------------------------------------------------------- page

  function Receive(p: Page, m: Message): Page {
    match m
    case Connected(cursor) => if p.cursor.None? then p.(cursor := Some(cursor)) else p
    case Settlement(ts) => if IsNew(p, m) then Page(Some(ts), p.shown + [ts]) else p
    case _ => p
  }

  /** The page would show this message. */
  predicate IsNew(p: Page, m: Message) { m.Settlement? && (p.cursor.None? || m.ts > p.cursor.value) }

  // ------------------------------------------------------------------------ together

  function Read(puts: seq<int>, version: Option<nat>): Option<int> {
    if version.Some? && version.value < |puts| then Some(puts[version.value]) else None
  }

  function Next(s: State, e: Event): State {
    match e
    case Put(ts) => s.(puts := s.puts + [ts])
    case Open(read, now) =>
      if s.stream.Some? then s else s.(stream := Some(OpenStream(s.page.cursor, Read(s.puts, read), now)))
    case _ => if s.stream.None? then s else NextOf(s, e, s.stream.value)
  }

  function NextOf(s: State, e: Event, st: Stream): State {
    match e
    case PollKv(read) => s.(stream := Some(Poll(st, Read(s.puts, read))))
    case PollFails => s.(stream := Some(Send(st, Issue)))
    case PlannedClose => if st.closed then s else s.(stream := Some(Finish(st)))
    case Deliver =>
      if st.queue == [] then s
      else
        var rest := if st.queue[0].Reconnect? then None else Some(st.(queue := st.queue[1..]));
        State(s.puts, rest, Receive(s.page, st.queue[0]))
    case Break => s.(stream := None)
    case _ => s
  }

  function Run(s: State, events: seq<Event>): State
    decreases |events|
  {
    if events == [] then s else Run(Next(s, events[0]), events[1..])
  }

  // ------------------------------------------------------------------------ as objects

  /** The variables of `sseHandler` for one response. */
  class SettlementStream {
    const start: int
    var cursor: int
    var closed: bool
    var queue: seq<Message>

    ghost function View(): Stream
      reads this
    {
      Stream(start, cursor, closed, queue)
    }

    constructor (since: Option<int>, latest: Option<int>, now: int)
      ensures View() == OpenStream(since, latest, now)
      ensures since.Some? ==> start == since.value
      ensures since.None? && latest.Some? ==> start == latest.value
      ensures since.None? && latest.None? ==> start == now
      ensures cursor == start && !closed && queue == [Connected(start)]
    {
      start := StartCursor(since, latest, now);
      cursor := StartCursor(since, latest, now);
      closed := false;
      queue := [Connected(StartCursor(since, latest, now))];
    }

    method PollKv(raw: Option<int>)
      modifies this
      ensures View() == Poll(old(View()), raw)
      ensures if !closed && raw.Some? && raw.value > old(cursor)
              then cursor == raw.value && queue == old(queue) + [Settlement(raw.value)]
              else cursor == old(cursor) && queue == old(queue)
    {
      if closed {
        return;
      }
      if raw.Some? && raw.value > cursor {
        cursor := raw.value;
        queue := queue + [Settlement(raw.value)];
      }
    }

    /** The read failed: the page is told, and the cursor stays. */
    method PollFails()
      modifies this
      ensures View() == Send(old(View()), Issue)
      ensures cursor == old(cursor) && closed == old(closed)
      ensures queue == old(queue) + if closed then [] else [Issue]
    {
      if !closed {
        queue := queue + [Issue];
      }
    }

    /** The end of the planned lifetime, also of a stream its reader has cancelled. */
    method Close()
      modifies this
      ensures View() == Finish(old(View()))
      ensures closed && cursor == old(cursor) && queue == old(queue) + if old(closed) then [] else [Reconnect]
    {
      if !closed {
        queue := queue + [Reconnect];
      }
      closed := true;
    }
  }

  /** The variables of the page script. */
  class FeedPage {
    var sseCursor: Option<int>
    var shown: seq<int>

    ghost function View(): Page
      reads this
    {
      Page(sseCursor, shown)
    }

    constructor ()
      ensures View() == Page(None, [])
    {
      sseCursor := None;
      shown := [];
    }

    method OnConnected(cursor: int)
      modifies this
      ensures View() == Receive(old(View()), Connected(cursor))
      ensures shown == old(shown) && sseCursor == if old(sseCursor).Some? then old(sseCursor) else Some(cursor)
    {
      if sseCursor.None? {
        sseCursor := Some(cursor);
      }
    }

    method OnSettlement(ts: int)
      modifies this
      ensures View() == Receive(old(View()), Settlement(ts))
      ensures if old(sseCursor).Some? && ts <= old(sseCursor).value
              then sseCursor == old(sseCursor) && shown == old(shown)
              else sseCursor == Some(ts) && shown == old(shown) + [ts]
    {
      if sseCursor.Some? && ts <= sseCursor.value {
        return;
      }
      sseCursor := Some(ts);
      shown := shown + [ts];
    }
  }
}
