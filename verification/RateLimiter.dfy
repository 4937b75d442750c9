/**
 The sliding-window limiter of src/rate-limiter.ts: a stored list that every hit and every
 alarm prunes. It is compared with a naive limiter that never forgets a hit.

 Times are milliseconds. A Durable Object runs its events one at a time, so each method
 here is one event.
 */
module RateLimiter {
  import opened Options

  datatype Decision = Decision(allowed: bool, retryAfter: int, kept: seq<int>)

  /** The timestamps later than `since`. */
  function Fresh(ts: seq<int>, since: int): (r: seq<int>)
    ensures |r| <= |ts|
  {
    if ts == [] then []
    else (if ts[0] > since then [ts[0]] else []) + Fresh(ts[1..], since)
  }

  function InsertTime(t: int, ts: seq<int>): seq<int> {
    if ts == [] || t <= ts[0] then [t] + ts else [ts[0]] + InsertTime(t, ts[1..])
  }

  function SortTimes(ts: seq<int>): seq<int> {
    if ts == [] then [] else InsertTime(ts[0], SortTimes(ts[1..]))
  }

  /** `Math.ceil(ms / 1000)` */
  function CeilSeconds(ms: int): int { -(-ms / 1000) }

  function EvaluateWindow(timestamps: seq<int>, now: int, window: int, quota: int): Decision
    requires quota >= 1
  {
    var recent := SortTimes(Fresh(timestamps, now - window));
    if |recent| >= quota then
      var wait := CeilSeconds(recent[0] + window - now);
      Decision(false, if wait > 1 then wait else 1, recent)
    else Decision(true, 0, recent + [now])
  }

  // ------------------------------------------------------------------------ the store

  /**
   One bucket. `stored` is what the Durable Object keeps; `ever` and `clock` record all
   allowed hits and the time of the last event.
   */
  datatype Bucket = Bucket(stored: seq<int>, ever: seq<int>, clock: int)

  function EmptyBucket(clock: int): Bucket { Bucket([], [], clock) }

  function HitBucket(b: Bucket, now: int, window: int, quota: int): Bucket
    requires quota >= 1
  {
    var d := EvaluateWindow(b.stored, now, window, quota);
    Bucket(d.kept, if d.allowed then b.ever + [now] else b.ever, now)
  }

  function AlarmBucket(b: Bucket, now: int, window: int): Bucket {
    Bucket(Fresh(b.stored, now - window), b.ever, now)
  }

  /** The Durable Object. `hits` is absent until the first hit and after `deleteAll`. */
  class RateLimiter {
    var hits: Option<seq<int>>
    var alarmAt: Option<int>
    ghost var ever: seq<int>
    ghost var clock: int

    ghost function Contents(): Bucket
      reads this
    {
      Bucket(if hits.Some? then hits.value else [], ever, clock)
    }

    constructor (ghost start: int)
      ensures Contents() == EmptyBucket(start) && alarmAt == None
    {
      hits, alarmAt := None, None;
      ever, clock := [], start;
    }

    method Hit(now: int, window: int, quota: int) returns (allowed: bool, retryAfter: int)
      requires quota >= 1
      modifies this
      ensures Contents() == HitBucket(old(Contents()), now, window, quota)
      ensures var d := EvaluateWindow(old(Contents()).stored, now, window, quota);
        allowed == d.allowed && retryAfter == d.retryAfter && hits == Some(d.kept)
      ensures alarmAt == Some(now + window + 1000)
    {
      var stored := if hits.Some? then hits.value else [];
      var decision := EvaluateWindow(stored, now, window, quota);
      hits := Some(decision.kept);
      if |decision.kept| > 0 {
        alarmAt := Some(now + window + 1000);
      }
      allowed, retryAfter := decision.allowed, decision.retryAfter;
      ever := if allowed then ever + [now] else ever;
      clock := now;
    }

    /** A fired alarm is no longer pending, and is not set again. */
    method Alarm(now: int, window: int)
      modifies this
      ensures Contents() == AlarmBucket(old(Contents()), now, window) && alarmAt == None
      ensures hits == None || (hits.Some? && hits.value != [])
    {
      alarmAt := None;
      var stored := if hits.Some? then hits.value else [];
      var recent := Fresh(stored, now - window);
      if |recent| == 0 {
        hits := None;
      } else {
        hits := Some(recent);
      }
      clock := now;
    }
  }

  // ---------------------------------------------------------------------- invariant

  ghost predicate Ascending(ts: seq<int>) { forall i, j | 0 <= i < j < |ts| :: ts[i] <= ts[j] }

  /** Entry i comes at least one window after the entry `quota` places before it. */
  ghost predicate SpacedAt(ever: seq<int>, i: nat, window: int, quota: nat)
    requires quota <= i < |ever|
  {
    ever[i - quota] <= ever[i] - window
  }

  ghost predicate Spaced(ever: seq<int>, window: int, quota: nat) {
    forall i | quota <= i < |ever| :: SpacedAt(ever, i, window, quota)
  }

  /** The full history of a bucket is ascending, spaced and not in the future. */
  ghost predicate History(b: Bucket, window: int, quota: nat) {
    && window > 0 && quota >= 1
    && Ascending(b.ever) && Spaced(b.ever, window, quota)
    && (b.ever != [] ==> b.ever[|b.ever| - 1] <= b.clock)
  }

  /** The store is the end of that history: what it lacks is too old to matter. */
  ghost predicate Pruned(b: Bucket, window: int, quota: nat) {
    && |b.stored| <= |b.ever| && |b.stored| <= quota
    && var gone := |b.ever| - |b.stored|;
      b.stored == b.ever[gone..] && (gone > 0 ==> b.ever[gone - 1] <= b.clock - window)
  }

  /** What every event keeps. */
  ghost predicate Inv(b: Bucket, window: int, quota: nat) {
    History(b, window, quota) && Pruned(b, window, quota)
  }

  /** How many of the first times are no later than `since`. */
  function OldCount(ts: seq<int>, since: int): (n: nat)
    ensures n <= |ts|
    ensures n > 0 ==> ts[n - 1] <= since
    ensures n < |ts| ==> ts[n] > since
  {
    if ts == [] || ts[0] > since then 0 else 1 + OldCount(ts[1..], since)
  }

  lemma {:induction false} AllFresh(ts: seq<int>, since: int)
    requires forall i | 0 <= i < |ts| :: ts[i] > since
    ensures Fresh(ts, since) == ts
  {
    if ts != [] {
      AllFresh(ts[1..], since);
      assert [ts[0]] + ts[1..] == ts;
    }
  }

  /** Pruning an ascending list cuts off its old front. */
  lemma {:induction false} FreshIsSuffix(ts: seq<int>, since: int)
    requires Ascending(ts)
    ensures Fresh(ts, since) == ts[OldCount(ts, since)..]
  {
    if ts != [] {
      if ts[0] > since {
        AllFresh(ts, since);
      } else {
        FreshIsSuffix(ts[1..], since);
        assert ts[1..][OldCount(ts[1..], since)..] == ts[OldCount(ts, since)..];
      }
    }
  }

  lemma {:induction false} SortAscending(ts: seq<int>)
    requires Ascending(ts)
    ensures SortTimes(ts) == ts
  {
    if ts != [] {
      SortAscending(ts[1..]);
      assert ts == [ts[0]] + ts[1..];
      if |ts| > 1 { assert ts[0] <= ts[1]; }
    }
  }

  lemma {:induction false} FreshConcat(a: seq<int>, b: seq<int>, since: int)
    ensures Fresh(a + b, since) == Fresh(a, since) + Fresh(b, since)
  {
    if a == [] {
      assert a + b == b;
    } else {
      assert (a + b)[1..] == a[1..] + b;
      FreshConcat(a[1..], b, since);
    }
  }

  lemma {:induction false} NothingFresh(a: seq<int>, since: int)
    requires Ascending(a) && (a != [] ==> a[|a| - 1] <= since)
    ensures Fresh(a, since) == []
  {
    if a != [] {
      assert a[0] <= a[|a| - 1] || |a| == 1;
      NothingFresh(a[1..], since);
    }
  }

  /** The two pruned lists agree: nothing the store forgot can matter later. */
  lemma FreshAgrees(b: Bucket, now: int, window: int, quota: nat)
    requires Inv(b, window, quota) && now >= b.clock
    ensures Fresh(b.stored, now - window) == Fresh(b.ever, now - window)
  {
    var since, gone := now - window, |b.ever| - |b.stored|;
    assert b.ever == b.ever[..gone] + b.stored;
    FreshConcat(b.ever[..gone], b.stored, since);
    NothingFresh(b.ever[..gone], since);
  }

  lemma EvaluateOn(stored: seq<int>, recent: seq<int>, now: int, window: int, quota: nat)
    requires quota >= 1 && SortTimes(Fresh(stored, now - window)) == recent
    requires recent != [] ==> recent[0] > now - window
    ensures var d := EvaluateWindow(stored, now, window, quota);
      && (d.allowed <==> |recent| < quota)
      && d.kept == (if d.allowed then recent + [now] else recent)
      && (!d.allowed ==> d.retryAfter == CeilSeconds(recent[0] + window - now) >= 1)
  {
    hide Fresh, SortTimes;
  }

  /** The part of the history that is still inside the window. */
  function Recent(b: Bucket, since: int): seq<int> { b.ever[OldCount(b.ever, since)..] }

  lemma RecentIs(b: Bucket, now: int, window: int, quota: nat)
    requires Inv(b, window, quota) && now >= b.clock
    ensures Fresh(b.ever, now - window) == Recent(b, now - window)
    ensures SortTimes(Fresh(b.stored, now - window)) == Fresh(b.stored, now - window) == Recent(b, now - window)
    ensures |Recent(b, now - window)| <= quota
  {
    hide Spaced, SortTimes, Fresh, OldCount, Pruned, Ascending;
    FreshAgrees(b, now, window, quota);
    FreshIsSuffix(b.ever, now - window);
    SuffixAscending(b.ever, OldCount(b.ever, now - window));
    SortAscending(Recent(b, now - window));
    StoreBound(b, window, quota);
  }

  lemma StoreBound(b: Bucket, window: int, quota: nat)
    requires Pruned(b, window, quota)
    ensures |b.stored| <= quota
  {
  }

  lemma SuffixAscending(ts: seq<int>, n: nat)
    requires Ascending(ts) && n <= |ts|
    ensures Ascending(ts[n..])
  {
  }

  /** What a hit finds, and leaves in the store, in terms of the full history. */
  lemma EvaluateIs(b: Bucket, now: int, window: int, quota: nat)
    requires Inv(b, window, quota) && now >= b.clock
    ensures var recent := Recent(b, now - window);
      var d := EvaluateWindow(b.stored, now, window, quota);
      && (d.allowed <==> |recent| < quota)
      && d.kept == (if d.allowed then recent + [now] else recent)
      && (!d.allowed ==> d.retryAfter == CeilSeconds(recent[0] + window - now) >= 1)
  {
    hide Pruned, Ascending, Spaced, EvaluateWindow, Fresh;
    RecentIs(b, now, window, quota);
    EvaluateOn(b.stored, Recent(b, now - window), now, window, quota);
  }

  lemma AppendKeepsHistory(ever: seq<int>, now: int, window: int, quota: nat)
    requires Ascending(ever) && Spaced(ever, window, quota) && quota >= 1
    requires ever != [] ==> ever[|ever| - 1] <= now
    requires |ever| >= quota ==> ever[|ever| - quota] <= now - window
    ensures Ascending(ever + [now]) && Spaced(ever + [now], window, quota)
  {
    var longer := ever + [now];
    forall i | quota <= i < |longer| ensures SpacedAt(longer, i, window, quota) {
      if i < |ever| { assert SpacedAt(ever, i, window, quota); }
    }
    forall i, j | 0 <= i < j < |longer| ensures longer[i] <= longer[j] {
      if j == |ever| { assert ever[i] <= ever[|ever| - 1] || i == |ever| - 1; }
    }
  }

  /** The time `quota` places back is out of the window when fewer than `quota` are recent. */
  lemma RoomMeansSpace(b: Bucket, now: int, window: int, quota: nat)
    requires Ascending(b.ever) && 1 <= quota <= |b.ever| && |Recent(b, now - window)| < quota
    ensures b.ever[|b.ever| - quota] <= now - window
  {
    var k := OldCount(b.ever, now - window);
    assert |b.ever| - quota == k - 1 || b.ever[|b.ever| - quota] <= b.ever[k - 1];
  }

  lemma HitKeepsInv(b: Bucket, now: int, window: int, quota: nat)
    requires Inv(b, window, quota) && now >= b.clock
    ensures var c := HitBucket(b, now, window, quota);
      && Inv(c, window, quota) && c.clock == now
      && c.ever == if |Fresh(b.ever, now - window)| < quota then b.ever + [now] else b.ever
  {
    hide EvaluateWindow, Ascending, Spaced, Fresh, Pruned, OldCount, Recent;
    EvaluateIs(b, now, window, quota);
    RecentIs(b, now, window, quota);
    RecentPruned(b, now, window, quota);
    if |Recent(b, now - window)| < quota {
      if |b.ever| >= quota { RoomMeansSpace(b, now, window, quota); }
      AppendKeepsHistory(b.ever, now, window, quota);
    }
  }

  /** Keeping what is recent, with or without a new hit, is a valid pruning. */
  lemma RecentPruned(b: Bucket, now: int, window: int, quota: nat)
    requires quota >= 1 && |Recent(b, now - window)| <= quota
    ensures var recent := Recent(b, now - window);
      && Pruned(Bucket(recent, b.ever, now), window, quota)
      && (|recent| < quota ==> Pruned(Bucket(recent + [now], b.ever + [now], now), window, quota))
  {
    hide OldCount;
    var k, recent := OldCount(b.ever, now - window), Recent(b, now - window);
    PrunedIntro(recent, b.ever, k, now, window, quota);
    if |recent| < quota {
      assert recent + [now] == (b.ever + [now])[k..];
      PrunedIntro(recent + [now], b.ever + [now], k, now, window, quota);
    }
  }

  lemma PrunedIntro(stored: seq<int>, ever: seq<int>, k: nat, clock: int, window: int, quota: nat)
    requires k <= |ever| && stored == ever[k..] && |stored| <= quota && (k > 0 ==> ever[k - 1] <= clock - window)
    ensures Pruned(Bucket(stored, ever, clock), window, quota)
  {
  }

  lemma AlarmKeepsInv(b: Bucket, now: int, window: int, quota: nat)
    requires Inv(b, window, quota) && now >= b.clock
    ensures var c := AlarmBucket(b, now, window);
      Inv(c, window, quota) && c.clock == now && c.ever == b.ever
  {
    hide Ascending, Spaced, Fresh, Pruned, Recent;
    RecentIs(b, now, window, quota);
    RecentPruned(b, now, window, quota);
  }

  // ------------------------------------------------------------- the naive limiter

  datatype Event = HitAt(time: int) | AlarmAt(time: int)

  /** Runs events on the pruned store; the answers are those given to the hits. */
  function Run(b: Bucket, events: seq<Event>, window: int, quota: int): (Bucket, seq<bool>)
    requires quota >= 1
    decreases |events|
  {
    if events == [] then (b, [])
    else match events[0]
      case HitAt(now) =>
        var (last, answers) := Run(HitBucket(b, now, window, quota), events[1..], window, quota);
        (last, [EvaluateWindow(b.stored, now, window, quota).allowed] + answers)
      case AlarmAt(now) => Run(AlarmBucket(b, now, window), events[1..], window, quota)
  }

  /** The limiter that keeps all allowed hits for ever and ignores alarms. */
  function NaiveRun(ever: seq<int>, events: seq<Event>, window: int, quota: int): (seq<int>, seq<bool>)
    decreases |events|
  {
    if events == [] then (ever, [])
    else match events[0]
      case HitAt(now) =>
        var allowed := |Fresh(ever, now - window)| < quota;
        var (last, answers) := NaiveRun(if allowed then ever + [now] else ever, events[1..], window, quota);
        (last, [allowed] + answers)
      case AlarmAt(_) => NaiveRun(ever, events[1..], window, quota)
  }

  ghost predicate NonDecreasing(start: int, events: seq<Event>)
    decreases |events|
  {
    events == [] || (events[0].time >= start && NonDecreasing(events[0].time, events[1..]))
  }

  /** Pruning, alarms and `deleteAll` never change an answer, in any run. */
  lemma {:induction false} PrunedIsNaive(b: Bucket, events: seq<Event>, window: int, quota: nat)
    requires Inv(b, window, quota) && quota >= 1 && NonDecreasing(b.clock, events)
    ensures Inv(Run(b, events, window, quota).0, window, quota)
    ensures Run(b, events, window, quota).1 == NaiveRun(b.ever, events, window, quota).1
    ensures Run(b, events, window, quota).0.ever == NaiveRun(b.ever, events, window, quota).0
    decreases |events|
  {
    hide Inv, EvaluateWindow, HitBucket, AlarmBucket;
    if events != [] {
      var now := events[0].time;
      if events[0].HitAt? {
        AnswerIsNaive(b, now, window, quota);
        HitKeepsInv(b, now, window, quota);
        PrunedIsNaive(HitBucket(b, now, window, quota), events[1..], window, quota);
      } else {
        AlarmKeepsInv(b, now, window, quota);
        PrunedIsNaive(AlarmBucket(b, now, window), events[1..], window, quota);
      }
    }
  }

  lemma AnswerIsNaive(b: Bucket, now: int, window: int, quota: nat)
    requires Inv(b, window, quota) && now >= b.clock
    ensures EvaluateWindow(b.stored, now, window, quota).allowed <==> |Fresh(b.ever, now - window)| < quota
  {
    hide EvaluateWindow, Fresh, Inv;
    EvaluateIs(b, now, window, quota);
    RecentIs(b, now, window, quota);
  }

  // -------------------------------------------------------------- the window bound

  /** How many of the times lie in the half-open interval (low, high]. */
  function CountIn(ts: seq<int>, low: int, high: int): nat {
    if ts == [] then 0
    else CountIn(ts[..|ts| - 1], low, high) + if low < ts[|ts| - 1] <= high then 1 else 0
  }

  /** Only the times after index n can count when the first n are too old. */
  lemma {:induction false} CountTail(ts: seq<int>, n: nat, low: int, high: int)
    requires n <= |ts| && forall i | 0 <= i < n :: ts[i] <= low
    ensures CountIn(ts, low, high) <= |ts| - n
  {
    if |ts| > 0 {
      if n == |ts| {
        CountTail(ts[..|ts| - 1], n - 1, low, high);
      } else {
        CountTail(ts[..|ts| - 1], n, low, high);
      }
    }
  }

  lemma {:induction false} SpacedBound(ever: seq<int>, t: int, window: int, quota: nat)
    requires Ascending(ever) && Spaced(ever, window, quota) && quota >= 1
    ensures CountIn(ever, t - window, t) <= quota
  {
    if |ever| > 0 {
      var last := |ever| - 1;
      if ever[last] > t {
        forall i | quota <= i < last ensures SpacedAt(ever[..last], i, window, quota) {
          assert SpacedAt(ever, i, window, quota);
        }
        SpacedBound(ever[..last], t, window, quota);
      } else if |ever| > quota {
        var n := |ever| - quota;
        assert SpacedAt(ever, last, window, quota);
        assert forall i | 0 <= i < n :: ever[i] <= ever[n - 1];
        CountTail(ever, n, t - window, t);
      } else {
        CountTail(ever, 0, t - window, t);
      }
    }
  }

  /** In any run from an empty bucket, any window-long interval holds at most `quota` allowed hits. */
  lemma QuotaHolds(start: int, events: seq<Event>, t: int, window: int, quota: nat)
    requires window > 0 && quota >= 1 && NonDecreasing(start, events)
    ensures CountIn(Run(EmptyBucket(start), events, window, quota).0.ever, t - window, t) <= quota
  {
    PrunedIsNaive(EmptyBucket(start), events, window, quota);
    SpacedBound(Run(EmptyBucket(start), events, window, quota).0.ever, t, window, quota);
  }

  // -------------------------------------------------------------------- Retry-After

  lemma CeilBounds(ms: int)
    ensures 1000 * (CeilSeconds(ms) - 1) < ms <= 1000 * CeilSeconds(ms)
  {
  }

  lemma OldCountSplits(ts: seq<int>, x: int, i: nat)
    requires Ascending(ts) && i < |ts|
    ensures ts[i] <= x <==> i < OldCount(ts, x)
  {
    var n := OldCount(ts, x);
    if i < n {
      assert i == n - 1 || ts[i] <= ts[n - 1];
    } else {
      assert i == n || ts[n] <= ts[i];
    }
  }

  /** The oldest recent hit decides whether a later count is lower. */
  lemma OldCountGrows(ts: seq<int>, low: int, high: int)
    requires low <= high && Ascending(ts) && OldCount(ts, low) < |ts|
    ensures OldCount(ts, low) <= OldCount(ts, high)
    ensures OldCount(ts, low) < OldCount(ts, high) <==> ts[OldCount(ts, low)] <= high
  {
    hide Ascending;
    var m := OldCount(ts, low);
    OldCountSplits(ts, high, m);
    if m > 0 { OldCountSplits(ts, high, m - 1); }
  }

  /**
   After a refusal with answer r, and no hit in between (alarms may fire), a hit r seconds
   later is allowed, and every hit up to r - 1 seconds later is still refused.
   */
  lemma RetryAfterTight(b: Bucket, now: int, later: Bucket, t: int, window: int, quota: nat)
    requires quota >= 1 && Inv(b, window, quota) && now >= b.clock
    requires !EvaluateWindow(b.stored, now, window, quota).allowed
    requires Inv(later, window, quota) && later.ever == b.ever && now <= later.clock <= t
    ensures var r := EvaluateWindow(b.stored, now, window, quota).retryAfter;
      && r >= 1
      && (t <= now + 1000 * (r - 1) ==> !EvaluateWindow(later.stored, t, window, quota).allowed)
      && (t >= now + 1000 * r ==> EvaluateWindow(later.stored, t, window, quota).allowed)
  {
    hide EvaluateWindow, Fresh, Inv, CeilSeconds, Recent;
    EvaluateIs(b, now, window, quota);
    EvaluateIs(later, t, window, quota);
    RecentIs(b, now, window, quota);
    LaterDecision(b, now, later, t, window, quota);
    CeilBounds(Recent(b, now - window)[0] + window - now);
  }

  /** With a full window, the next hit is allowed exactly when the oldest hit has left it. */
  lemma LaterDecision(b: Bucket, now: int, later: Bucket, t: int, window: int, quota: nat)
    requires Inv(b, window, quota) && quota >= 1
    requires |Recent(b, now - window)| == quota && later.ever == b.ever && now <= t
    ensures |Recent(later, t - window)| < quota <==> Recent(b, now - window)[0] <= t - window
  {
    hide Ascending, Spaced, Pruned, OldCount;
    OldCountGrows(b.ever, now - window, t - window);
  }

  /** `Math.max(1, ...)` never changes the answer: the wait rounds up to at least a second. */
  lemma MaxIsIdle(b: Bucket, now: int, window: int, quota: nat)
    requires Inv(b, window, quota) && now >= b.clock
    requires !EvaluateWindow(b.stored, now, window, quota).allowed
    ensures var d := EvaluateWindow(b.stored, now, window, quota);
      d.retryAfter == CeilSeconds(d.kept[0] + window - now)
  {
    EvaluateIs(b, now, window, quota);
  }

  // --------------------------------------------------------------------- idle buckets

  /**
   An alarm empties a bucket exactly if its last allowed hit has left the window. The alarm
   that the last event set, one second past the window, always does.
   */
  lemma AlarmEmpties(b: Bucket, now: int, window: int, quota: nat)
    requires Inv(b, window, quota) && now >= b.clock
    ensures AlarmBucket(b, now, window).stored == [] <==> b.ever == [] || b.ever[|b.ever| - 1] <= now - window
    ensures now >= b.clock + window ==> AlarmBucket(b, now, window).stored == []
  {
    hide Spaced, Pruned, Fresh;
    RecentIs(b, now, window, quota);
    if b.ever != [] { OldCountSplits(b.ever, now - window, |b.ever| - 1); }
  }
}
