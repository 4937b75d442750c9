/**
 Who pays: `ownWallets` and `summarise` of src/payers.ts.

 Amounts are in micro-USDC, and a timestamp of None is the empty string, which compares
 below every other.
 */
module Payers {
  import opened Options
  import opened Texts

  datatype StoredReceipt = StoredReceipt(
    txHash: Option<string>, payer: Option<string>, amount: nat, ts: Option<int>, resource: Option<string>)

  datatype PayerSummary = PayerSummary(
    address: string, settlements: nat, volume: nat, firstSeen: Option<int>, lastSeen: Option<int>, isExternal: bool)

  // ------------------------------------------------------------------- own wallets

  /** `split(",")`. */
  function Split(raw: string): (parts: seq<string>)
    ensures parts != []
  {
    if raw == "" then [""]
    else
      var rest := Split(raw[1..]);
      if raw[0] == ',' then [""] + rest else [[raw[0]] + rest[0]] + rest[1..]
  }

  function TrimEnd(s: string): string { if s != "" && IsSpace(s[|s| - 1]) then TrimEnd(s[..|s| - 1]) else s }

  function Trim(s: string): string { TrimEnd(TrimStart(s)) }

  function Wallets(parts: seq<string>): set<string> {
    if parts == [] then {}
    else
      var address := Lower(Trim(parts[0]));
      (if address == "" then {} else {address}) + Wallets(parts[1..])
  }

  function OwnWallets(raw: string): set<string> { Wallets(Split(raw)) }

  function JoinCommas(parts: seq<string>): string {
    if parts == [] then "" else if |parts| == 1 then parts[0] else parts[0] + "," + JoinCommas(parts[1..])
  }

  lemma {:induction false} SplitOne(part: string)
    requires ',' !in part
    ensures Split(part) == [part]
  {
    if part != "" {
      SplitOne(part[1..]);
      assert part == [part[0]] + part[1..];
    }
  }

  lemma {:induction false} SplitFirst(part: string, rest: string)
    requires ',' !in part
    ensures Split(part + "," + rest) == [part] + Split(rest)
  {
    var t := part + "," + rest;
    if part == "" {
      assert t == "," + rest && t[1..] == rest;
    } else {
      SplitFirst(part[1..], rest);
      assert t[1..] == part[1..] + "," + rest;
      assert part == [part[0]] + part[1..];
    }
  }

  lemma {:induction false} SplitJoined(parts: seq<string>)
    requires parts != [] && forall k | 0 <= k < |parts| :: ',' !in parts[k]
    ensures Split(JoinCommas(parts)) == parts
  {
    if |parts| == 1 {
      SplitOne(parts[0]);
    } else {
      SplitJoined(parts[1..]);
      SplitFirst(parts[0], JoinCommas(parts[1..]));
      assert parts == [parts[0]] + parts[1..];
    }
  }

  predicate Trimmed(s: string) { s != "" ==> !IsSpace(s[0]) && !IsSpace(s[|s| - 1]) }

  lemma {:induction false} TrimEndDrops(s: string, space: string)
    requires Spaces(space) && (s != "" ==> !IsSpace(s[|s| - 1]))
    ensures TrimEnd(s + space) == s
  {
    if space == "" {
      assert s + space == s;
    } else {
      var n := |space| - 1;
      assert IsSpace(space[n]) && (s + space)[..|s| + n] == s + space[..n];
      TrimEndDrops(s, space[..n]);
    }
  }

  /** Trimming drops the white space around a text, and nothing else. */
  lemma TrimDrops(before: string, s: string, after: string)
    requires Spaces(before) && Trimmed(s) && Spaces(after)
    ensures Trim(before + s + after) == s
  {
    if s == "" {
      var space := before + after;
      assert before + s + after == space + "";
      TrimStartDrops(space, "");
    } else {
      assert before + s + after == before + (s + after);
      TrimStartDrops(before, s + after);
      TrimEndDrops(s, after);
    }
  }

  lemma {:induction false} WalletsOf(parts: seq<string>, address: string)
    ensures address in Wallets(parts)
       <==> address != "" && exists k :: 0 <= k < |parts| && Lower(Trim(parts[k])) == address
  {
    if parts != [] {
      WalletsOf(parts[1..], address);
      if exists k :: 0 <= k < |parts| && Lower(Trim(parts[k])) == address {
        var k :| 0 <= k < |parts| && Lower(Trim(parts[k])) == address;
        if k > 0 { assert parts[1..][k - 1] == parts[k]; }
      }
      if exists k :: 0 <= k < |parts[1..]| && Lower(Trim(parts[1..][k])) == address {
        var k :| 0 <= k < |parts[1..]| && Lower(Trim(parts[1..][k])) == address;
        assert parts[k + 1] == parts[1..][k];
      }
    }
  }

  /** An entry of the list: an address, with white space around it. */
  datatype Entry = Entry(before: string, address: string, after: string)

  function TextOf(e: Entry): string { e.before + e.address + e.after }

  predicate IsEntry(e: Entry) {
    Spaces(e.before) && Trimmed(e.address) && Spaces(e.after) && ',' !in TextOf(e)
  }

  function EntryTexts(entries: seq<Entry>): (r: seq<string>)
    ensures |r| == |entries| && forall k | 0 <= k < |r| :: r[k] == TextOf(entries[k])
  {
    if entries == [] then [] else [TextOf(entries[0])] + EntryTexts(entries[1..])
  }

  /** Exactly the listed addresses are ours, whatever their case and the white space around them. */
  lemma ListedAreOurs(entries: seq<Entry>, address: string)
    requires forall k | 0 <= k < |entries| :: IsEntry(entries[k])
    ensures Lower(address) in OwnWallets(JoinCommas(EntryTexts(entries)))
       <==> address != "" && exists k :: 0 <= k < |entries| && Lower(entries[k].address) == Lower(address)
  {
    hide Trim, Trimmed, Spaces, TextOf;
    var parts := EntryTexts(entries);
    forall k | 0 <= k < |parts| ensures Trim(parts[k]) == entries[k].address && ',' !in parts[k] {
      assert IsEntry(entries[k]);
      EntryTrims(entries[k]);
    }
    if parts == [] {
      assert Split("") == [""] && Lower(Trim("")) == "" by { NothingListed(); }
      WalletsOf([""], Lower(address));
    } else {
      SplitJoined(parts);
      WalletsOf(parts, Lower(address));
    }
  }

  lemma EntryTrims(e: Entry)
    requires IsEntry(e)
    ensures Trim(TextOf(e)) == e.address
  {
    TrimDrops(e.before, e.address, e.after);
  }

  lemma NothingListed()
    ensures Split("") == [""] && Lower(Trim("")) == ""
  {
  }

  // ------------------------------------------------------------------ specification

  function Address(r: StoredReceipt): string { if r.payer.Some? then Lower(r.payer.value) else "" }

  predicate Settled(r: StoredReceipt) { r.txHash.Some? && r.txHash.value != "" }

  predicate Counts(r: StoredReceipt) { Settled(r) && Address(r) != "" }

  /** A receipt counts exactly with a transaction and a payer, each of them not empty. */
  lemma CountsIff(r: StoredReceipt)
    ensures Counts(r) <==>
      && r.txHash.Some? && |r.txHash.value| > 0
      && r.payer.Some? && |r.payer.value| > 0
  {
  }

  predicate SameLetter(a: char, b: char) {
    || a == b
    || ('A' <= a <= 'Z' && b as int == a as int + 32)
    || ('A' <= b <= 'Z' && a as int == b as int + 32)
  }

  /** Two receipts are one payer's exactly if their payers are the same letters, in whatever case. */
  lemma SamePayerIff(a: StoredReceipt, b: StoredReceipt)
    requires a.payer.Some? && b.payer.Some?
    ensures Address(a) == Address(b) <==>
      && |a.payer.value| == |b.payer.value|
      && forall k | 0 <= k < |a.payer.value| :: SameLetter(a.payer.value[k], b.payer.value[k])
  {
    var s, t := a.payer.value, b.payer.value;
    if |s| == |t| {
      assert forall k | 0 <= k < |s| :: Lower(s)[k] == Lower(t)[k] <==> SameLetter(s[k], t[k]);
    } else {
      assert |Lower(s)| != |Lower(t)|;
    }
  }

  /** The receipts that count. */
  function Counted(receipts: seq<StoredReceipt>): seq<StoredReceipt> {
    if receipts == [] then []
    else
      var n := |receipts| - 1;
      Counted(receipts[..n]) + if Counts(receipts[n]) then [receipts[n]] else []
  }

  /** The receipts of one payer. */
  function Of(receipts: seq<StoredReceipt>, address: string): seq<StoredReceipt> {
    if receipts == [] then []
    else
      var n := |receipts| - 1;
      Of(receipts[..n], address) + if Counts(receipts[n]) && Address(receipts[n]) == address then [receipts[n]] else []
  }

  function Volume(receipts: seq<StoredReceipt>): nat {
    if receipts == [] then 0
    else
      var n := |receipts| - 1;
      Volume(receipts[..n]) + receipts[n].amount
  }

  predicate Before(a: Option<int>, b: Option<int>) { b.Some? && (a.None? || a.value < b.value) }

  function First(receipts: seq<StoredReceipt>): Option<int>
    requires receipts != []
  {
    var n := |receipts| - 1;
    if n == 0 then receipts[0].ts
    else
      var first, ts := First(receipts[..n]), receipts[n].ts;
      if ts.Some? && Before(ts, first) then ts else first
  }

  function Last(receipts: seq<StoredReceipt>): Option<int>
    requires receipts != []
  {
    var n := |receipts| - 1;
    if n == 0 then receipts[0].ts
    else
      var last, ts := Last(receipts[..n]), receipts[n].ts;
      if ts.Some? && Before(last, ts) then ts else last
  }

  /** The payers in the order in which they first appear. */
  function Addresses(receipts: seq<StoredReceipt>): seq<string> {
    if receipts == [] then []
    else
      var n := |receipts| - 1;
      var before, r := Addresses(receipts[..n]), receipts[n];
      if Counts(r) && Address(r) !in before then before + [Address(r)] else before
  }

  function SummaryOf(receipts: seq<StoredReceipt>, own: set<string>, address: string): PayerSummary
    requires Of(receipts, address) != []
  {
    var mine := Of(receipts, address);
    PayerSummary(address, |mine|, Volume(mine), First(mine), Last(mine), address !in own)
  }

  lemma {:induction false} AddressHasReceipts(receipts: seq<StoredReceipt>, address: string)
    ensures address in Addresses(receipts) <==> Of(receipts, address) != []
    ensures forall i, j | 0 <= i < j < |Addresses(receipts)| :: Addresses(receipts)[i] != Addresses(receipts)[j]
  {
    if receipts != [] {
      AddressHasReceipts(receipts[..|receipts| - 1], address);
    }
  }

  function Summaries(addresses: seq<string>, receipts: seq<StoredReceipt>, own: set<string>): (r: seq<PayerSummary>)
    requires forall a | a in addresses :: Of(receipts, a) != []
    ensures |r| == |addresses| && forall k | 0 <= k < |r| :: r[k] == SummaryOf(receipts, own, addresses[k])
  {
    if addresses == [] then []
    else [SummaryOf(receipts, own, addresses[0])] + Summaries(addresses[1..], receipts, own)
  }

  /** `sort((a, b) => b.last_seen.localeCompare(a.last_seen))`: newest first, and stable. */
  function Insert(s: PayerSummary, sorted: seq<PayerSummary>): (r: seq<PayerSummary>)
    ensures multiset(r) == multiset(sorted) + multiset{s}
  {
    if sorted == [] || !Before(s.lastSeen, sorted[0].lastSeen) then [s] + sorted
    else
      assert sorted == [sorted[0]] + sorted[1..];
      [sorted[0]] + Insert(s, sorted[1..])
  }

  function SortByLastSeen(list: seq<PayerSummary>): (r: seq<PayerSummary>)
    ensures multiset(r) == multiset(list)
  {
    if list == [] then []
    else
      assert list == [list[0]] + list[1..];
      Insert(list[0], SortByLastSeen(list[1..]))
  }

  predicate NewestFirst(list: seq<PayerSummary>) {
    forall i, j | 0 <= i < j < |list| :: !Before(list[i].lastSeen, list[j].lastSeen)
  }

  lemma {:induction false} InsertKeepsOrder(s: PayerSummary, list: seq<PayerSummary>)
    requires NewestFirst(list)
    ensures NewestFirst(Insert(s, list))
    ensures forall k | 0 <= k < |Insert(s, list)| :: Insert(s, list)[k] == s || Insert(s, list)[k] in list
  {
    if list != [] && Before(s.lastSeen, list[0].lastSeen) {
      InsertKeepsOrder(s, list[1..]);
      var rest := Insert(s, list[1..]);
      forall k | 0 <= k < |rest| ensures !Before(list[0].lastSeen, rest[k].lastSeen) {
        if rest[k] != s {
          var i :| 0 <= i < |list[1..]| && list[1..][i] == rest[k];
          assert list[i + 1] == rest[k];
        }
      }
    }
  }

  lemma {:induction false} SortIsNewestFirst(list: seq<PayerSummary>)
    ensures NewestFirst(SortByLastSeen(list))
  {
    if list != [] {
      SortIsNewestFirst(list[1..]);
      InsertKeepsOrder(list[0], SortByLastSeen(list[1..]));
    }
  }

  lemma EveryAddressHasReceipts(receipts: seq<StoredReceipt>)
    ensures forall a | a in Addresses(receipts) :: Of(receipts, a) != []
  {
    forall a | a in Addresses(receipts) ensures Of(receipts, a) != [] {
      AddressHasReceipts(receipts, a);
    }
  }

  function Summary(receipts: seq<StoredReceipt>, own: set<string>): seq<PayerSummary> {
    EveryAddressHasReceipts(receipts);
    SortByLastSeen(Summaries(Addresses(receipts), receipts, own))
  }

  // ---------------------------------------------------------------------- the loop

  lemma OfAppend(receipts: seq<StoredReceipt>, r: StoredReceipt, address: string)
    ensures Of(receipts + [r], address) == Of(receipts, address)
      + if Counts(r) && Address(r) == address then [r] else []
  {
    assert (receipts + [r])[..|receipts|] == receipts;
  }

  lemma AddressesAppend(receipts: seq<StoredReceipt>, r: StoredReceipt)
    ensures Addresses(receipts + [r]) ==
      if Counts(r) && Address(r) !in Addresses(receipts) then Addresses(receipts) + [Address(r)]
      else Addresses(receipts)
  {
    assert (receipts + [r])[..|receipts|] == receipts;
  }

  lemma AppendedSummary(mine: seq<StoredReceipt>, r: StoredReceipt)
    ensures Volume(mine + [r]) == Volume(mine) + r.amount
    ensures mine == [] ==> First(mine + [r]) == r.ts && Last(mine + [r]) == r.ts
    ensures mine != [] ==>
      && First(mine + [r]) == (if r.ts.Some? && Before(r.ts, First(mine)) then r.ts else First(mine))
      && Last(mine + [r]) == (if r.ts.Some? && Before(Last(mine), r.ts) then r.ts else Last(mine))
  {
    assert (mine + [r])[..|mine|] == mine;
  }

  /** The map of `summarise` after these receipts, and the order of its keys. */
  ghost predicate Tallied(byPayer: map<string, PayerSummary>, order: seq<string>, receipts: seq<StoredReceipt>,
                          own: set<string>) {
    && order == Addresses(receipts)
    && (forall a :: a in byPayer <==> a in order)
    && (forall a | a in byPayer :: Of(receipts, a) != [] && byPayer[a] == SummaryOf(receipts, own, a))
  }

  lemma TallyOther(receipts: seq<StoredReceipt>, own: set<string>, r: StoredReceipt, a: string)
    requires Of(receipts, a) != [] && !(Counts(r) && Address(r) == a)
    ensures Of(receipts + [r], a) != [] && SummaryOf(receipts + [r], own, a) == SummaryOf(receipts, own, a)
  {
    hide Of, First, Last, Volume, Counts, Address;
    OfAppend(receipts, r, a);
    assert Of(receipts, a) + [] == Of(receipts, a);
  }

  /** One receipt more. */
  lemma TallySkip(byPayer: map<string, PayerSummary>, order: seq<string>, receipts: seq<StoredReceipt>,
                  own: set<string>, r: StoredReceipt)
    requires Tallied(byPayer, order, receipts, own) && !Counts(r)
    ensures Tallied(byPayer, order, receipts + [r], own)
  {
    hide Of, Addresses, SummaryOf, Counts, Address;
    AddressesAppend(receipts, r);
    forall a | a in byPayer ensures Of(receipts + [r], a) != [] && byPayer[a] == SummaryOf(receipts + [r], own, a) {
      TallyOther(receipts, own, r, a);
    }
  }

  function Updated(s: PayerSummary, r: StoredReceipt): PayerSummary {
    s.(settlements := s.settlements + 1,
       volume := s.volume + r.amount,
       firstSeen := if r.ts.Some? && Before(r.ts, s.firstSeen) then r.ts else s.firstSeen,
       lastSeen := if r.ts.Some? && Before(s.lastSeen, r.ts) then r.ts else s.lastSeen)
  }

  lemma TallyAgain(byPayer: map<string, PayerSummary>, order: seq<string>, receipts: seq<StoredReceipt>,
                  own: set<string>, r: StoredReceipt)
    requires Tallied(byPayer, order, receipts, own) && Counts(r) && Address(r) in byPayer
    ensures Tallied(byPayer[Address(r) := Updated(byPayer[Address(r)], r)], order, receipts + [r], own)
  {
    hide Of, Addresses, First, Last, Volume;
    AddressesAppend(receipts, r);
    forall a | a in byPayer && a != Address(r)
      ensures Of(receipts + [r], a) != [] && byPayer[a] == SummaryOf(receipts + [r], own, a)
    {
      TallyOther(receipts, own, r, a);
    }
    OfAppend(receipts, r, Address(r));
    AppendedSummary(Of(receipts, Address(r)), r);
  }

  lemma TallyNew(byPayer: map<string, PayerSummary>, order: seq<string>, receipts: seq<StoredReceipt>,
                  own: set<string>, r: StoredReceipt)
    requires Tallied(byPayer, order, receipts, own) && Counts(r) && Address(r) !in byPayer
    ensures var a := Address(r);
      Tallied(byPayer[a := PayerSummary(a, 1, r.amount, r.ts, r.ts, a !in own)], order + [a], receipts + [r], own)
  {
    hide Of, Addresses, First, Last, Volume;
    AddressesAppend(receipts, r);
    forall a | a in byPayer ensures Of(receipts + [r], a) != [] && byPayer[a] == SummaryOf(receipts + [r], own, a) {
      TallyOther(receipts, own, r, a);
    }
    AddressHasReceipts(receipts, Address(r));
    OfAppend(receipts, r, Address(r));
    AppendedSummary([], r);
    assert [] + [r] == [r] && Volume([]) == 0 by { NoVolume(); }
  }

  lemma NoVolume()
    ensures Volume([]) == 0
  {
  }

  /** `summarise`. */
  method Summarise(receipts: seq<StoredReceipt>, own: set<string>) returns (payers: seq<PayerSummary>)
    ensures payers == Summary(receipts, own)
  {
    hide Tallied, Addresses, SummaryOf, SortByLastSeen, Of, Counts, Address;
    var byPayer: map<string, PayerSummary> := map[];
    var order: seq<string> := [];
    NothingTallied(own);
    assert receipts[..0] == [];
    for i := 0 to |receipts|
      invariant Tallied(byPayer, order, receipts[..i], own)
    {
      var r := receipts[i];
      assert receipts[..i + 1] == receipts[..i] + [r];
      var address := Address(r);
      if !Counts(r) {
        TallySkip(byPayer, order, receipts[..i], own, r);
        continue;
      }
      if address in byPayer {
        TallyAgain(byPayer, order, receipts[..i], own, r);
        byPayer := byPayer[address := Updated(byPayer[address], r)];
      } else {
        TallyNew(byPayer, order, receipts[..i], own, r);
        byPayer := byPayer[address := PayerSummary(address, 1, r.amount, r.ts, r.ts, address !in own)];
        order := order + [address];
      }
    }
    assert receipts[..|receipts|] == receipts;
    TalliedAll(byPayer, order, receipts, own);
    var values := seq(|order|, k requires 0 <= k < |order| && order[k] in byPayer => byPayer[order[k]]);
    ValuesAreSummaries(byPayer, order, receipts, own, values);
    payers := SortByLastSeen(values);
  }

  lemma NothingTallied(own: set<string>)
    ensures Tallied(map[], [], [], own)
  {
  }

  lemma TalliedAll(byPayer: map<string, PayerSummary>, order: seq<string>, receipts: seq<StoredReceipt>,
                   own: set<string>)
    requires Tallied(byPayer, order, receipts, own)
    ensures forall k | 0 <= k < |order| :: order[k] in byPayer
  {
  }

  lemma ValuesAreSummaries(byPayer: map<string, PayerSummary>, order: seq<string>, receipts: seq<StoredReceipt>,
                           own: set<string>, values: seq<PayerSummary>)
    requires Tallied(byPayer, order, receipts, own) && |values| == |order|
    requires forall k | 0 <= k < |order| :: order[k] in byPayer && values[k] == byPayer[order[k]]
    ensures SortByLastSeen(values) == Summary(receipts, own)
  {
    hide Of, Addresses, SortByLastSeen, SummaryOf;
    EveryAddressHasReceipts(receipts);
    assert values == Summaries(Addresses(receipts), receipts, own);
  }

  // ------------------------------------------------------------------- first and last

  predicate NoTimes(receipts: seq<StoredReceipt>) { forall k | 0 <= k < |receipts| :: receipts[k].ts.None? }

  /** The smallest of the timestamps that are not empty. */
  ghost predicate IsEarliest(first: Option<int>, receipts: seq<StoredReceipt>) {
    if NoTimes(receipts) then first == None
    else
      && first.Some?
      && (exists k :: 0 <= k < |receipts| && receipts[k].ts == first)
      && (forall k | 0 <= k < |receipts| :: receipts[k].ts.Some? ==> first.value <= receipts[k].ts.value)
  }

  ghost predicate IsLatest(last: Option<int>, receipts: seq<StoredReceipt>) {
    if NoTimes(receipts) then last == None
    else
      && last.Some?
      && (exists k :: 0 <= k < |receipts| && receipts[k].ts == last)
      && (forall k | 0 <= k < |receipts| :: receipts[k].ts.Some? ==> receipts[k].ts.value <= last.value)
  }

  lemma {:induction false} LastIsLatest(receipts: seq<StoredReceipt>)
    requires receipts != []
    ensures IsLatest(Last(receipts), receipts)
  {
    var n := |receipts| - 1;
    if n > 0 {
      var before := receipts[..n];
      LastIsLatest(before);
      assert receipts == before + [receipts[n]];
      if !NoTimes(before) {
        var k :| 0 <= k < n && before[k].ts == Last(before);
        assert receipts[k].ts == Last(before);
      }
      assert forall k | 0 <= k < n :: receipts[k] == before[k];
      assert receipts[n].ts == receipts[n].ts;
    }
  }

  lemma {:induction false} FirstWithTime(receipts: seq<StoredReceipt>)
    requires receipts != []
    ensures receipts[0].ts.Some? ==> IsEarliest(First(receipts), receipts)
    ensures receipts[0].ts.None? ==> First(receipts) == None
  {
    var n := |receipts| - 1;
    if n > 0 {
      var before := receipts[..n];
      FirstWithTime(before);
      assert before[0] == receipts[0];
      assert forall k | 0 <= k < n :: receipts[k] == before[k];
      if receipts[0].ts.Some? {
        assert !NoTimes(before) && !NoTimes(receipts);
        var k :| 0 <= k < n && before[k].ts == First(before);
        assert receipts[k].ts == First(before);
        assert receipts[n].ts == receipts[n].ts;
      }
    }
  }

  /**
   `first_seen` is the earliest timestamp exactly if the payer's first receipt has one, or
   none has: an empty `first_seen` is never replaced.
   */
  lemma FirstSeenIsEarliest(receipts: seq<StoredReceipt>)
    requires receipts != []
    ensures IsEarliest(First(receipts), receipts) <==> receipts[0].ts.Some? || NoTimes(receipts)
  {
    FirstWithTime(receipts);
  }

  /** The input: a first receipt without a timestamp hides the time of the next. */
  lemma FirstWithoutTime(first: StoredReceipt, next: StoredReceipt)
    requires first.ts.None? && next.ts.Some?
    ensures First([first, next]) == None && IsEarliest(next.ts, [first, next])
    ensures !IsEarliest(First([first, next]), [first, next])
  {
    FirstWithTime([first, next]);
    FirstSeenIsEarliest([first, next]);
    assert [first, next][1].ts == next.ts;
  }

  lemma {:induction false} OfIs(receipts: seq<StoredReceipt>, address: string, r: StoredReceipt)
    ensures r in Of(receipts, address) <==> r in receipts && Counts(r) && Address(r) == address
  {
    hide Counts, Address;
    if receipts != [] {
      var n := |receipts| - 1;
      OfIs(receipts[..n], address, r);
      assert receipts == receipts[..n] + [receipts[n]];
    }
  }

  /**
   The report has exactly the payers of receipts that count, and says of each the
   number, the volume and the latest time of its own receipts, the earliest if the first of
   them has a time, and whether it is ours.
   */
  lemma ReportIs(receipts: seq<StoredReceipt>, own: set<string>, address: string)
    ensures (exists s :: s in Summary(receipts, own) && s.address == address)
       <==> exists r :: r in receipts && Counts(r) && Address(r) == address
    ensures forall s | s in Summary(receipts, own) ::
      var mine := Of(receipts, s.address);
      && mine != [] && s.settlements == |mine| && s.volume == Volume(mine) && (s.isExternal <==> s.address !in own)
      && IsLatest(s.lastSeen, mine) && (IsEarliest(s.firstSeen, mine) <==> mine[0].ts.Some? || NoTimes(mine))
  {
    hide Of, Counts, Address, First, Last, Volume, Addresses, SortByLastSeen, IsLatest, IsEarliest, NoTimes;
    EveryAddressHasReceipts(receipts);
    var list := Summaries(Addresses(receipts), receipts, own);
    SortHasSame(list);
    AddressHasReceipts(receipts, address);
    if Of(receipts, address) != [] {
      OfIs(receipts, address, Of(receipts, address)[0]);
      var k :| 0 <= k < |list| && Addresses(receipts)[k] == address;
      assert list[k] in list && list[k].address == address;
    }
    forall r | r in receipts && Counts(r) && Address(r) == address ensures Of(receipts, address) != [] {
      OfIs(receipts, address, r);
    }
    forall s | s in Summary(receipts, own)
      ensures var mine := Of(receipts, s.address);
        && mine != [] && s.settlements == |mine| && s.volume == Volume(mine) && (s.isExternal <==> s.address !in own)
        && IsLatest(s.lastSeen, mine) && (IsEarliest(s.firstSeen, mine) <==> mine[0].ts.Some? || NoTimes(mine))
    {
      var k :| 0 <= k < |list| && list[k] == s;
      LastIsLatest(Of(receipts, s.address));
      FirstSeenIsEarliest(Of(receipts, s.address));
    }
  }

  lemma SortHasSame(list: seq<PayerSummary>)
    ensures forall s :: s in SortByLastSeen(list) <==> s in list
  {
    hide SortByLastSeen;
    var sorted := SortByLastSeen(list);
    assert multiset(sorted) == multiset(list);
    forall s ensures s in sorted <==> s in list {
      assert s in sorted <==> s in multiset(sorted);
      assert s in list <==> s in multiset(list);
    }
  }

  // -------------------------------------------------------------------- conservation

  function TotalSettlements(payers: seq<PayerSummary>): nat {
    if payers == [] then 0 else payers[0].settlements + TotalSettlements(payers[1..])
  }

  function TotalVolume(payers: seq<PayerSummary>): nat {
    if payers == [] then 0 else payers[0].volume + TotalVolume(payers[1..])
  }

  function External(payers: seq<PayerSummary>, isExternal: bool): seq<PayerSummary> {
    if payers == [] then []
    else (if payers[0].isExternal == isExternal then [payers[0]] else []) + External(payers[1..], isExternal)
  }

  lemma {:induction false} InsertTotals(s: PayerSummary, list: seq<PayerSummary>)
    ensures TotalSettlements(Insert(s, list)) == s.settlements + TotalSettlements(list)
    ensures TotalVolume(Insert(s, list)) == s.volume + TotalVolume(list)
  {
    if list != [] && Before(s.lastSeen, list[0].lastSeen) {
      InsertTotals(s, list[1..]);
    }
  }

  lemma {:induction false} SortTotals(list: seq<PayerSummary>)
    ensures TotalSettlements(SortByLastSeen(list)) == TotalSettlements(list)
    ensures TotalVolume(SortByLastSeen(list)) == TotalVolume(list)
  {
    if list != [] {
      SortTotals(list[1..]);
      InsertTotals(list[0], SortByLastSeen(list[1..]));
    }
  }

  /** Receipts and volume of the payers in a list of addresses. */
  function Settlements(addresses: seq<string>, receipts: seq<StoredReceipt>): nat {
    if addresses == [] then 0
    else
      var n := |addresses| - 1;
      Settlements(addresses[..n], receipts) + |Of(receipts, addresses[n])|
  }

  function Volumes(addresses: seq<string>, receipts: seq<StoredReceipt>): nat {
    if addresses == [] then 0
    else
      var n := |addresses| - 1;
      Volumes(addresses[..n], receipts) + Volume(Of(receipts, addresses[n]))
  }

  lemma {:induction false} OneMoreReceipt(addresses: seq<string>, receipts: seq<StoredReceipt>, r: StoredReceipt)
    requires forall i, j | 0 <= i < j < |addresses| :: addresses[i] != addresses[j]
    ensures var mine := Counts(r) && Address(r) in addresses;
      && Settlements(addresses, receipts + [r]) == Settlements(addresses, receipts) + (if mine then 1 else 0)
      && Volumes(addresses, receipts + [r]) == Volumes(addresses, receipts) + (if mine then r.amount else 0)
  {
    hide Of, Volume, Counts, Address;
    if addresses != [] {
      var n := |addresses| - 1;
      OneMoreReceipt(addresses[..n], receipts, r);
      OfAppend(receipts, r, addresses[n]);
      AppendedSummary(Of(receipts, addresses[n]), r);
      assert Of(receipts, addresses[n]) + [] == Of(receipts, addresses[n]);
      assert addresses == addresses[..n] + [addresses[n]];
    }
  }

  /** A payer not seen before. */
  lemma NewPayer(order: seq<string>, before: seq<StoredReceipt>, r: StoredReceipt)
    requires Counts(r) && Of(before, Address(r)) == []
    ensures var receipts, longer := before + [r], order + [Address(r)];
      && Settlements(longer, receipts) == Settlements(order, receipts) + 1
      && Volumes(longer, receipts) == Volumes(order, receipts) + r.amount
  {
    hide Of, Volume, Counts, Address;
    assert (order + [Address(r)])[..|order|] == order;
    OfAppend(before, r, Address(r));
    AppendedSummary([], r);
    NoVolume();
    assert [] + [r] == [r];
  }

  lemma CountedAppend(before: seq<StoredReceipt>, r: StoredReceipt)
    ensures |Counted(before + [r])| == |Counted(before)| + (if Counts(r) then 1 else 0)
    ensures Volume(Counted(before + [r])) == Volume(Counted(before)) + (if Counts(r) then r.amount else 0)
  {
    hide Volume, Counts;
    assert (before + [r])[..|before|] == before;
    AppendedSummary(Counted(before), r);
    assert Counted(before) + [] == Counted(before);
  }

  lemma {:induction false} AllReceipts(receipts: seq<StoredReceipt>)
    ensures Settlements(Addresses(receipts), receipts) == |Counted(receipts)|
    ensures Volumes(Addresses(receipts), receipts) == Volume(Counted(receipts))
  {
    hide Of, Volume, Counts, Address, Counted;
    if receipts == [] {
      NoVolume();
      assert Counted([]) == [] by { CountedNone(); }
    } else {
      var before, r := receipts[..|receipts| - 1], receipts[|receipts| - 1];
      AllReceipts(before);
      assert receipts == before + [r];
      AddressHasReceipts(before, Address(r));
      AddressesAppend(before, r);
      OneMoreReceipt(Addresses(before), before, r);
      CountedAppend(before, r);
      if Counts(r) && Address(r) !in Addresses(before) { NewPayer(Addresses(before), before, r); }
    }
  }

  lemma CountedNone()
    ensures Counted([]) == []
  {
  }

  lemma {:induction false} SummariesTotals(addresses: seq<string>, receipts: seq<StoredReceipt>, own: set<string>)
    requires forall a | a in addresses :: Of(receipts, a) != []
    ensures TotalSettlements(Summaries(addresses, receipts, own)) == Settlements(addresses, receipts)
    ensures TotalVolume(Summaries(addresses, receipts, own)) == Volumes(addresses, receipts)
  {
    hide Of, Volume;
    if addresses != [] {
      SummariesTotals(addresses[1..], receipts, own);
      HeadFirst(addresses, receipts);
    }
  }

  lemma {:induction false} HeadFirst(addresses: seq<string>, receipts: seq<StoredReceipt>)
    requires addresses != []
    ensures Settlements(addresses, receipts) == |Of(receipts, addresses[0])| + Settlements(addresses[1..], receipts)
    ensures Volumes(addresses, receipts) == Volume(Of(receipts, addresses[0])) + Volumes(addresses[1..], receipts)
  {
    hide Of, Volume;
    var n := |addresses| - 1;
    if n > 0 {
      HeadFirst(addresses[..n], receipts);
      assert addresses[..n][1..] == addresses[1..][..n - 1];
    }
  }

  lemma {:induction false} SplitTotals(payers: seq<PayerSummary>)
    ensures TotalSettlements(External(payers, true)) + TotalSettlements(External(payers, false))
      == TotalSettlements(payers)
    ensures TotalVolume(External(payers, true)) + TotalVolume(External(payers, false)) == TotalVolume(payers)
  {
    if payers != [] {
      SplitTotals(payers[1..]);
      var p := payers[0];
      var rest := External(payers[1..], p.isExternal);
      assert External(payers, p.isExternal) == [p] + rest && ([p] + rest)[1..] == rest;
      assert External(payers, !p.isExternal) == External(payers[1..], !p.isExternal);
    }
  }

  /**
   No settlement is lost or counted twice: over all payers, and over the external and the
   own ones together, counts and volumes add up to those of the receipts that count.
   */
  lemma Conservation(receipts: seq<StoredReceipt>, own: set<string>)
    ensures var payers := Summary(receipts, own);
      var outside, ours := External(payers, true), External(payers, false);
      && TotalSettlements(payers) == |Counted(receipts)|
      && TotalVolume(payers) == Volume(Counted(receipts))
      && TotalSettlements(outside) + TotalSettlements(ours) == |Counted(receipts)|
      && TotalVolume(outside) + TotalVolume(ours) == Volume(Counted(receipts))
  {
    hide Of, Volume, Counted, Addresses, SortByLastSeen, External;
    EveryAddressHasReceipts(receipts);
    AllReceipts(receipts);
    SummariesTotals(Addresses(receipts), receipts, own);
    SortTotals(Summaries(Addresses(receipts), receipts, own));
    SplitTotals(Summary(receipts, own));
  }
}
