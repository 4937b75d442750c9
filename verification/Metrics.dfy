/**
 The settlement figures of `dailyMetricsHandler` in src/metrics.ts, and how they relate to
 the payers that src/payers.ts reports for the same receipts.
 */
module Metrics {
  import opened Options
  import opened Payers
  import Budget

  const UNLABELLED: string := "unlabelled"

  datatype Daily = Daily(total: nat, byResource: map<string, nat>, volume: nat, payers: set<string>,
                         externals: set<string>)

  /** A settled receipt with a timestamp on that day (days counted from the epoch). */
  predicate OnDay(r: StoredReceipt, day: int) { Settled(r) && r.ts.Some? && r.ts.value / Budget.DAY_MS == day }

  /** The receipts of a day are those with a transaction and a time from its first to its last millisecond. */
  lemma OnDayIff(r: StoredReceipt, day: int)
    ensures OnDay(r, day) <==>
      && r.txHash.Some? && r.txHash.value != "" && r.ts.Some?
      && day * 86_400_000 <= r.ts.value < (day + 1) * 86_400_000
  {
    if r.ts.Some? { DayOf(r.ts.value, day); }
  }

  lemma DayOf(ts: int, day: int)
    ensures ts / 86_400_000 == day <==> day * 86_400_000 <= ts < (day + 1) * 86_400_000
  {
  }

  function OfDay(log: seq<StoredReceipt>, day: int): (r: seq<StoredReceipt>)
    ensures forall k | 0 <= k < |r| :: Settled(r[k])
  {
    if log == [] then []
    else
      var n := |log| - 1;
      OfDay(log[..n], day) + if OnDay(log[n], day) then [log[n]] else []
  }

  function Resource(r: StoredReceipt): string { if r.resource.Some? then r.resource.value else UNLABELLED }

  /** How many receipts are for this resource. */
  function CountFor(receipts: seq<StoredReceipt>, resource: string): nat {
    if receipts == [] then 0
    else
      var n := |receipts| - 1;
      CountFor(receipts[..n], resource) + if Resource(receipts[n]) == resource then 1 else 0
  }

  /** A receipt without a resource counts under that label, and any other under its own. */
  lemma LabelIs(r: StoredReceipt, name: string)
    ensures CountFor([r], name) ==
      if r.resource == Some(name) || (r.resource.None? && name == "unlabelled") then 1 else 0
  {
    assert [r][..0] == [];
  }

  function PayersOf(receipts: seq<StoredReceipt>): set<string> {
    set r | r in receipts && Address(r) != "" :: Address(r)
  }

  /** What the loop has found after these receipts. */
  ghost predicate Folded(d: Daily, receipts: seq<StoredReceipt>, own: set<string>) {
    && d.total == |receipts| && d.volume == Volume(receipts)
    && (forall x :: x in d.byResource <==> CountFor(receipts, x) > 0)
    && (forall x | x in d.byResource :: d.byResource[x] == CountFor(receipts, x))
    && d.payers == PayersOf(receipts) && d.externals == PayersOf(receipts) - own
  }

  lemma CountAppend(receipts: seq<StoredReceipt>, r: StoredReceipt, resource: string)
    ensures CountFor(receipts + [r], resource) == CountFor(receipts, resource)
      + if Resource(r) == resource then 1 else 0
  {
    assert (receipts + [r])[..|receipts|] == receipts;
  }

  lemma PayersAppend(receipts: seq<StoredReceipt>, r: StoredReceipt)
    ensures PayersOf(receipts + [r]) == PayersOf(receipts) + if Address(r) != "" then {Address(r)} else {}
  {
    hide Address;
    var more := receipts + [r];
    forall a ensures a in PayersOf(more) <==> a in PayersOf(receipts) || (a != "" && a == Address(r)) {
      if a in PayersOf(more) {
        var q :| q in more && Address(q) != "" && Address(q) == a;
        assert q in receipts || q == r;
      }
      if a in PayersOf(receipts) {
        var q :| q in receipts && Address(q) != "" && Address(q) == a;
        assert q in more;
      }
      assert r in more;
    }
  }

  lemma FoldOne(d: Daily, receipts: seq<StoredReceipt>, own: set<string>, r: StoredReceipt,
                byResource: map<string, nat>)
    requires Folded(d, receipts, own)
    requires var x := Resource(r);
      byResource == d.byResource[x := (if x in d.byResource then d.byResource[x] else 0) + 1]
    ensures var a := Address(r);
      Folded(Daily(d.total + 1, byResource, d.volume + r.amount,
                   if a != "" then d.payers + {a} else d.payers,
                   if a != "" && a !in own then d.externals + {a} else d.externals), receipts + [r], own)
  {
    hide CountFor, PayersOf, Volume, Address;
    AppendedSummary(receipts, r);
    PayersAppend(receipts, r);
    forall x ensures x in byResource <==> CountFor(receipts + [r], x) > 0 {
      CountAppend(receipts, r, x);
    }
    forall x | x in byResource ensures byResource[x] == CountFor(receipts + [r], x) {
      CountAppend(receipts, r, x);
    }
  }

  lemma FoldNone(own: set<string>)
    ensures Folded(Daily(0, map[], 0, {}, {}), [], own)
  {
  }

  lemma OfDayAppend(log: seq<StoredReceipt>, r: StoredReceipt, day: int)
    ensures OfDay(log + [r], day) == OfDay(log, day) + if OnDay(r, day) then [r] else []
  {
    assert (log + [r])[..|log|] == log;
  }

  /** The settlement part of `dailyMetricsHandler`. */
  method DailySettlements(log: seq<StoredReceipt>, day: int, own: set<string>) returns (d: Daily)
    ensures d.total == |OfDay(log, day)| && d.volume == Volume(OfDay(log, day))
    ensures forall x :: (if x in d.byResource then d.byResource[x] else 0) == CountFor(OfDay(log, day), x)
    ensures d.payers == PayersOf(OfDay(log, day)) && d.externals == d.payers - own
  {
    hide Folded, OnDay, Address;
    var dayReceipts: seq<StoredReceipt> := [];
    assert log[..0] == [];
    for i := 0 to |log|
      invariant dayReceipts == OfDay(log[..i], day)
    {
      assert log[..i + 1] == log[..i] + [log[i]];
      OfDayAppend(log[..i], log[i], day);
      if OnDay(log[i], day) {
        dayReceipts := dayReceipts + [log[i]];
      }
    }
    assert log[..|log|] == log;
    var byResource: map<string, nat> := map[];
    var volume: nat, payers: set<string>, externals: set<string> := 0, {}, {};
    FoldNone(own);
    assert dayReceipts[..0] == [];
    for i := 0 to |dayReceipts|
      invariant Folded(Daily(i, byResource, volume, payers, externals), dayReceipts[..i], own)
    {
      var r := dayReceipts[i];
      ghost var before := Daily(i, byResource, volume, payers, externals);
      assert dayReceipts[..i + 1] == dayReceipts[..i] + [r];
      var resource := Resource(r);
      byResource := byResource[resource := (if resource in byResource then byResource[resource] else 0) + 1];
      volume := volume + r.amount;
      var address := Address(r);
      if address != "" {
        payers := payers + {address};
        if address !in own {
          externals := externals + {address};
        }
      }
      FoldOne(before, dayReceipts[..i], own, r, byResource);
    }
    assert dayReceipts[..|dayReceipts|] == dayReceipts;
    d := Daily(|dayReceipts|, byResource, volume, payers, externals);
    FoldedMeans(d, dayReceipts, own);
  }

  lemma FoldedMeans(d: Daily, receipts: seq<StoredReceipt>, own: set<string>)
    requires Folded(d, receipts, own)
    ensures d.total == |receipts| && d.volume == Volume(receipts)
    ensures forall x :: (if x in d.byResource then d.byResource[x] else 0) == CountFor(receipts, x)
    ensures d.payers == PayersOf(receipts) && d.externals == d.payers - own
  {
  }

  // ------------------------------------------------------------ two ways to count

  lemma {:induction false} AddressesArePayers(receipts: seq<StoredReceipt>, a: string)
    requires forall k | 0 <= k < |receipts| :: Settled(receipts[k])
    ensures a in Addresses(receipts) <==> a in PayersOf(receipts)
  {
    hide Address, Settled, PayersOf;
    if receipts == [] {
      assert PayersOf([]) == {} by { NoPayers(); }
    } else {
      var before, r := receipts[..|receipts| - 1], receipts[|receipts| - 1];
      AddressesArePayers(before, a);
      PayersAppend(before, r);
      assert receipts == before + [r];
    }
  }

  lemma NoPayers()
    ensures PayersOf([]) == {}
  {
  }

  /** How many of these addresses are not ours. */
  function Outside(addresses: seq<string>, own: set<string>): set<string> { set a | a in addresses && a !in own }

  lemma {:induction false} ExternalCount(addresses: seq<string>, receipts: seq<StoredReceipt>, own: set<string>)
    requires forall a | a in addresses :: Of(receipts, a) != []
    requires forall i, j | 0 <= i < j < |addresses| :: addresses[i] != addresses[j]
    ensures |External(Summaries(addresses, receipts, own), true)| == |Outside(addresses, own)|
  {
    hide Of, Volume, First, Last;
    if addresses != [] {
      var a, rest := addresses[0], addresses[1..];
      ExternalCount(rest, receipts, own);
      assert a !in rest;
      assert Outside(addresses, own) == Outside(rest, own) + if a in own then {} else {a};
    }
  }

  lemma {:induction false} InsertExternal(s: PayerSummary, list: seq<PayerSummary>)
    ensures |External(Insert(s, list), true)| == |External(list, true)| + if s.isExternal then 1 else 0
  {
    if list != [] && Before(s.lastSeen, list[0].lastSeen) {
      InsertExternal(s, list[1..]);
      assert Insert(s, list)[1..] == Insert(s, list[1..]);
    }
  }

  lemma {:induction false} SortExternal(list: seq<PayerSummary>)
    ensures |External(SortByLastSeen(list), true)| == |External(list, true)|
  {
    if list != [] {
      SortExternal(list[1..]);
      InsertExternal(list[0], SortByLastSeen(list[1..]));
    }
  }

  /**
   For the receipts of a day, the number of external payers that the payer report counts is
   the number of external addresses that the daily metrics count.
   */
  lemma ExternalsAgree(log: seq<StoredReceipt>, day: int, own: set<string>)
    ensures var receipts := OfDay(log, day);
      |External(Summary(receipts, own), true)| == |PayersOf(receipts) - own|
  {
    hide Of, Addresses, PayersOf, OfDay, SortByLastSeen, External;
    var receipts := OfDay(log, day);
    EveryAddressHasReceipts(receipts);
    var addresses := Addresses(receipts);
    AddressHasReceipts(receipts, "");
    forall a ensures a in addresses <==> a in PayersOf(receipts) {
      AddressesArePayers(receipts, a);
    }
    ExternalCount(addresses, receipts, own);
    SortExternal(Summaries(addresses, receipts, own));
    assert Outside(addresses, own) == PayersOf(receipts) - own;
  }

  /** And it is the same payers: an address is external there exactly if it is here. */
  lemma SameExternals(log: seq<StoredReceipt>, day: int, own: set<string>, a: string)
    ensures var receipts := OfDay(log, day);
      a in PayersOf(receipts) - own <==> exists s :: s in Summary(receipts, own) && s.isExternal && s.address == a
  {
    hide Of, Addresses, PayersOf, OfDay, SortByLastSeen;
    var receipts := OfDay(log, day);
    var addresses := Addresses(receipts);
    EveryAddressHasReceipts(receipts);
    AddressesArePayers(receipts, a);
    var list := Summaries(addresses, receipts, own);
    SortHasSame(list);
    if a in addresses && a !in own {
      var k :| 0 <= k < |addresses| && addresses[k] == a;
      assert list[k] in list && list[k].isExternal && list[k].address == a;
    }
    if exists s :: s in Summary(receipts, own) && s.isExternal && s.address == a {
      var s :| s in Summary(receipts, own) && s.isExternal && s.address == a;
      assert s in list;
      var k :| 0 <= k < |list| && list[k] == s;
      assert addresses[k] in addresses;
    }
  }

  /** Receipts that name no payer are in the daily volume, and in nobody's account. */
  function Nameless(receipts: seq<StoredReceipt>): seq<StoredReceipt> {
    if receipts == [] then []
    else
      var n := |receipts| - 1;
      Nameless(receipts[..n]) + if Address(receipts[n]) == "" then [receipts[n]] else []
  }

  lemma {:induction false} SplitVolume(receipts: seq<StoredReceipt>)
    requires forall k | 0 <= k < |receipts| :: Settled(receipts[k])
    ensures Volume(receipts) == Volume(Counted(receipts)) + Volume(Nameless(receipts))
    ensures |receipts| == |Counted(receipts)| + |Nameless(receipts)|
  {
    hide Settled, Address, Volume;
    if receipts == [] {
      NoVolume();
    } else {
      var before, r := receipts[..|receipts| - 1], receipts[|receipts| - 1];
      SplitVolume(before);
      assert receipts == before + [r];
      AppendedSummary(before, r);
      AppendedSummary(Counted(before), r);
      AppendedSummary(Nameless(before), r);
      assert Counted(before) + [] == Counted(before) && Nameless(before) + [] == Nameless(before);
    }
  }

  /** The day's figures are the payers' accounts together, plus the receipts without a payer. */
  lemma AccountsMakeTheDay(log: seq<StoredReceipt>, day: int, own: set<string>)
    ensures var receipts := OfDay(log, day);
      && Volume(receipts) == TotalVolume(Summary(receipts, own)) + Volume(Nameless(receipts))
      && |receipts| == TotalSettlements(Summary(receipts, own)) + |Nameless(receipts)|
  {
    hide OfDay, Volume, Nameless, Counted, Summary, Settled;
    SplitVolume(OfDay(log, day));
    Conservation(OfDay(log, day), own);
  }
}
