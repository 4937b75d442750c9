/** The rolling sum of buyer/budget.mjs, in whole micro-USDC and milliseconds. */
module Budget {
  import opened Options

  const DAY_MS: int := 24 * 60 * 60 * 1000

  /** A ledger entry as parsed: a price that is not a number, or an unreadable time, is None. */
  datatype LedgerEntry = LedgerEntry(result: string, price: Option<int>, time: Option<int>)

  const SUCCESS: string := "success"
  const UNCONFIRMED: string := "payment_unconfirmed"

  predicate IsSpend(result: string) { result == SUCCESS || result == UNCONFIRMED }

  /** What an entry adds to the spend inside (low, high]. */
  function Amount(e: LedgerEntry, low: int, high: int): int {
    if IsSpend(e.result) && e.price.Some? && e.time.Some? && low < e.time.value <= high then e.price.value else 0
  }

  function Spent(entries: seq<LedgerEntry>, low: int, high: int): int {
    if entries == [] then 0
    else Spent(entries[..|entries| - 1], low, high) + Amount(entries[|entries| - 1], low, high)
  }

  lemma SpentAppend(entries: seq<LedgerEntry>, e: LedgerEntry, low: int, high: int)
    ensures Spent(entries + [e], low, high) == Spent(entries, low, high) + Amount(e, low, high)
  {
    assert (entries + [e])[..|entries|] == entries;
  }

  /** `spentInWindow`, with its loop and its `continue`s. `toFixed(6)` is exact on whole micro-USDC. */
  method SpentInWindow(entries: seq<LedgerEntry>, now: int, window: int) returns (total: int)
    ensures total == Spent(entries, now - window, now)
  {
    var windowStart := now - window;
    total := 0;
    for i := 0 to |entries|
      invariant total == Spent(entries[..i], windowStart, now)
    {
      var entry := entries[i];
      assert entries[..i + 1] == entries[..i] + [entry];
      SpentAppend(entries[..i], entry, windowStart, now);
      if !IsSpend(entry.result) {
        continue;
      }
      if entry.price.None? {
        continue;
      }
      if entry.time.None? {
        continue;
      }
      if entry.time.value > windowStart && entry.time.value <= now {
        total := total + entry.price.value;
      }
    }
    assert entries[..|entries|] == entries;
  }

  // ---------------------------------------------------------------- properties

  /** Prices that could be summed are not negative. */
  ghost predicate NoRefunds(entries: seq<LedgerEntry>) {
    forall i | 0 <= i < |entries| :: entries[i].price.Some? ==> entries[i].price.value >= 0
  }

  ghost predicate WrittenBy(entries: seq<LedgerEntry>, clock: int) {
    forall i | 0 <= i < |entries| :: entries[i].time.Some? ==> entries[i].time.value <= clock
  }

  /** The spend inside every window-long interval is within the cap. */
  ghost predicate WithinCap(entries: seq<LedgerEntry>, window: int, cap: int) {
    forall t :: SpentUpTo(entries, window, t) <= cap
  }

  /** The spend inside the window that ends at t. */
  function SpentUpTo(entries: seq<LedgerEntry>, window: int, t: int): int { Spent(entries, t - window, t) }

  lemma {:induction false} SpentNonNegative(entries: seq<LedgerEntry>, low: int, high: int)
    requires NoRefunds(entries)
    ensures Spent(entries, low, high) >= 0
  {
    if entries != [] { SpentNonNegative(entries[..|entries| - 1], low, high); }
  }

  /** Moving a window forward past the last entry only loses entries. */
  lemma {:induction false} LaterSpendsLess(entries: seq<LedgerEntry>, low: int, high: int, low': int, high': int)
    requires NoRefunds(entries) && WrittenBy(entries, high) && low <= low' && high <= high'
    ensures Spent(entries, low', high') <= Spent(entries, low, high)
  {
    if entries != [] { LaterSpendsLess(entries[..|entries| - 1], low, high, low', high'); }
  }

  /**
   Appending a spend keeps the cap, when at an earlier check the window's spend plus this
   price was within the cap and everything older was written by the time of the check.
   */
  lemma AppendKeepsCap(entries: seq<LedgerEntry>, e: LedgerEntry, check: int, window: int, cap: int)
    requires window > 0 && NoRefunds(entries) && WrittenBy(entries, check) && WithinCap(entries, window, cap)
    requires e.price.Some? && e.price.value >= 0 && e.time.Some? && check <= e.time.value
    requires Spent(entries, check - window, check) + e.price.value <= cap
    ensures WithinCap(entries + [e], window, cap)
  {
    forall t ensures SpentUpTo(entries + [e], window, t) <= cap {
      SpentAppend(entries, e, t - window, t);
      assert SpentUpTo(entries, window, t) <= cap;
      if t >= e.time.value {
        LaterSpendsLess(entries, check - window, check, t - window, t);
      }
    }
  }
}
