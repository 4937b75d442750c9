/**
 The subscriber export of src/subscribe.ts, and a reader for it: section 2 of RFC 4180,
 with LF as the line end.
 */
module Csv {
  import opened Options
  import opened Texts
  import Seqs

  datatype Subscriber = Subscriber(email: string, ts: string, source: string)

  /** A value under a key: a subscription, or something the handler's parse or property reads fail on. */
  datatype Stored = Record(subscriber: Subscriber) | Unreadable

  /** What `list` returns page by page for the prefix, and what `get` finds. */
  datatype Kv = Kv(pages: seq<seq<string>>, values: map<string, Stored>)

  datatype Response = Error(status: int, error: string) | Export(text: string)

  const HEADER: seq<string> := ["email", "timestamp", "source", "consent"]

  // ----------------------------------------------------------------------- printing

  /** `replace(/"/g, '""')`. */
  function DoubleQuotes(v: string): string {
    if v == "" then "" else (if v[0] == '"' then "\"\"" else [v[0]]) + DoubleQuotes(v[1..])
  }

  function Quote(v: string): string { "\"" + (DoubleQuotes(v) + "\"") }

  function Fields(s: Subscriber): seq<string> { [s.email, s.ts, s.source, "true"] }

  /** `map(quote).join(",")`. */
  function Row(fields: seq<string>): string {
    if fields == [] then "" else if |fields| == 1 then Quote(fields[0])
    else Quote(fields[0]) + ("," + Row(fields[1..]))
  }

  /** Fields written without quotes, which is how the first line is written. */
  function BareRow(fields: seq<string>): string {
    if fields == [] then "" else if |fields| == 1 then fields[0]
    else fields[0] + ("," + BareRow(fields[1..]))
  }

  const HEADER_LINE: string := BareRow(HEADER)

  /** `rows.join("\n") + "\n"`. */
  function Lines(rows: seq<string>): string {
    if rows == [] then "" else rows[0] + ("\n" + Lines(rows[1..]))
  }

  // ------------------------------------------------------------------------ reading

  /** A quoted field after its opening quote: the value and what follows. */
  function ReadQuoted(t: string): (r: Option<(string, string)>)
    ensures r.Some? ==> |r.value.1| < |t|
  {
    if t == "" then None
    else if t[0] != '"' then
      match ReadQuoted(t[1..])
      case None => None
      case Some((v, rest)) => Some(([t[0]] + v, rest))
    else if |t| > 1 && t[1] == '"' then
      match ReadQuoted(t[2..])
      case None => None
      case Some((v, rest)) => Some(("\"" + v, rest))
    else Some(("", t[1..]))
  }

  /** A field without quotes; a quote inside it is not allowed. */
  function ReadBare(t: string): (r: Option<(string, string)>)
    ensures r.Some? ==> |r.value.1| <= |t|
  {
    if t == "" || t[0] == ',' || t[0] == '\n' then Some(("", t))
    else if t[0] == '"' then None
    else
      match ReadBare(t[1..])
      case None => None
      case Some((v, rest)) => Some(([t[0]] + v, rest))
  }

  function ReadField(t: string): (r: Option<(string, string)>)
    ensures r.Some? ==> |r.value.1| <= |t|
  {
    if t != "" && t[0] == '"' then ReadQuoted(t[1..]) else ReadBare(t)
  }

  /** The fields of one line, and what follows its line end. */
  function ReadRecord(t: string): (r: Option<(seq<string>, string)>)
    ensures r.Some? ==> |r.value.1| < |t| || r.value.1 == ""
    decreases |t|
  {
    match ReadField(t)
    case None => None
    case Some((v, rest)) =>
      if rest == "" then Some(([v], ""))
      else if rest[0] == '\n' then Some(([v], rest[1..]))
      else if rest[0] != ',' then None
      else
        match ReadRecord(rest[1..])
        case None => None
        case Some((vs, rest')) => Some(([v] + vs, rest'))
  }

  function ReadFile(t: string): Option<seq<seq<string>>>
    decreases |t|
  {
    if t == "" then Some([])
    else
      match ReadRecord(t)
      case None => None
      case Some((fields, rest)) =>
        match ReadFile(rest)
        case None => None
        case Some(more) => Some([fields] + more)
  }

  // --------------------------------------------------------------------- round trip

  lemma ReadChar(c: char, t: string)
    requires c != '"' && ReadQuoted(t).Some?
    ensures ReadQuoted([c] + t) == Some(([c] + ReadQuoted(t).value.0, ReadQuoted(t).value.1))
  {
    assert ([c] + t)[1..] == t;
  }

  lemma ReadTwoQuotes(t: string)
    requires ReadQuoted(t).Some?
    ensures ReadQuoted("\"\"" + t) == Some(("\"" + ReadQuoted(t).value.0, ReadQuoted(t).value.1))
  {
    assert ("\"\"" + t)[2..] == t;
  }

  lemma ReadClose(r: string)
    requires r != "" && r[0] != '"'
    ensures ReadQuoted("\"" + r) == Some(("", r))
  {
    assert ("\"" + r)[1..] == r;
  }

  /** A quoted value is read back, if no further quote follows it. */
  lemma {:induction false} QuotedReads(v: string, r: string)
    requires r != "" && r[0] != '"'
    ensures ReadQuoted(DoubleQuotes(v) + ("\"" + r)) == Some((v, r))
  {
    hide ReadQuoted;
    if v == "" {
      ReadClose(r);
      assert "" + ("\"" + r) == "\"" + r;
    } else {
      QuotedReads(v[1..], r);
      var rest := DoubleQuotes(v[1..]) + ("\"" + r);
      if v[0] == '"' {
        ReadTwoQuotes(rest);
        Seqs.Assoc("\"\"", DoubleQuotes(v[1..]), "\"" + r);
      } else {
        ReadChar(v[0], rest);
        Seqs.Assoc([v[0]], DoubleQuotes(v[1..]), "\"" + r);
      }
      assert v == [v[0]] + v[1..];
    }
  }

  lemma FieldReads(v: string, r: string)
    requires r != "" && r[0] != '"'
    ensures ReadField(Quote(v) + r) == Some((v, r))
  {
    hide ReadQuoted, DoubleQuotes;
    QuotedReads(v, r);
    var t := Quote(v) + r;
    assert t[1..] == DoubleQuotes(v) + ("\"" + r);
  }

  lemma RecordStep(w: string, v: string, t: string)
    requires ReadField(w) == Some((v, "," + t)) && ReadRecord(t).Some?
    ensures ReadRecord(w) == Some(([v] + ReadRecord(t).value.0, ReadRecord(t).value.1))
  {
    hide ReadField;
    assert ("," + t)[1..] == t;
  }

  lemma RecordLast(w: string, v: string, t: string)
    requires ReadField(w) == Some((v, "\n" + t))
    ensures ReadRecord(w) == Some(([v], t))
  {
    hide ReadField;
    assert ("\n" + t)[1..] == t;
  }

  lemma {:induction false} RowReads(fields: seq<string>, r: string)
    requires fields != []
    ensures ReadRecord(Row(fields) + ("\n" + r)) == Some((fields, r))
    decreases |fields|
  {
    hide ReadField, ReadRecord, Quote;
    var v := fields[0];
    if |fields| == 1 {
      FieldReads(v, "\n" + r);
      RecordLast(Quote(v) + ("\n" + r), v, r);
      assert fields == [v];
    } else {
      var more := Row(fields[1..]) + ("\n" + r);
      FieldReads(v, "," + more);
      RowReads(fields[1..], r);
      RecordStep(Quote(v) + ("," + more), v, more);
      Chain(Quote(v), Row(fields[1..]), "\n" + r);
      assert fields == [v] + fields[1..];
    }
  }

  lemma Chain(a: string, b: string, c: string)
    ensures (a + ("," + b)) + c == a + ("," + (b + c))
  {
  }

  predicate Plain(v: string) { '"' !in v && ',' !in v && '\n' !in v }

  lemma {:induction false} BareReads(v: string, r: string)
    requires Plain(v) && r != "" && (r[0] == ',' || r[0] == '\n')
    ensures ReadBare(v + r) == Some((v, r))
  {
    if v == "" {
      assert v + r == r;
    } else {
      BareReads(v[1..], r);
      assert (v + r)[1..] == v[1..] + r;
      assert v == [v[0]] + v[1..];
    }
  }

  lemma {:induction false} BareRowReads(fields: seq<string>, r: string)
    requires fields != [] && forall k | 0 <= k < |fields| :: Plain(fields[k]) && fields[k] != ""
    ensures ReadRecord(BareRow(fields) + ("\n" + r)) == Some((fields, r))
    decreases |fields|
  {
    hide ReadBare, ReadRecord, Plain;
    var v := fields[0];
    assert Plain(v) && v != "";
    if |fields| == 1 {
      BareFieldReads(v, "\n" + r);
      RecordLast(v + ("\n" + r), v, r);
      assert fields == [v];
    } else {
      var more := BareRow(fields[1..]) + ("\n" + r);
      BareFieldReads(v, "," + more);
      BareRowReads(fields[1..], r);
      RecordStep(v + ("," + more), v, more);
      Chain(v, BareRow(fields[1..]), "\n" + r);
      assert fields == [v] + fields[1..];
    }
  }

  lemma BareFieldReads(v: string, r: string)
    requires Plain(v) && v != "" && r != "" && (r[0] == ',' || r[0] == '\n')
    ensures ReadField(v + r) == Some((v, r))
  {
    hide ReadBare;
    assert (v + r)[0] == v[0] && v[0] in v;
    BareReads(v, r);
  }

  lemma HeaderReads(r: string)
    ensures ReadRecord(HEADER_LINE + ("\n" + r)) == Some((HEADER, r))
  {
    hide ReadRecord, BareRow;
    BareRowReads(HEADER, r);
  }

  function Rows(subscribers: seq<Subscriber>): seq<string> {
    if subscribers == [] then [] else [Row(Fields(subscribers[0]))] + Rows(subscribers[1..])
  }

  function FieldRows(subscribers: seq<Subscriber>): seq<seq<string>> {
    if subscribers == [] then [] else [Fields(subscribers[0])] + FieldRows(subscribers[1..])
  }

  lemma {:induction false} RowsRead(subscribers: seq<Subscriber>)
    ensures ReadFile(Lines(Rows(subscribers))) == Some(FieldRows(subscribers))
  {
    hide ReadRecord, Row;
    if subscribers != [] {
      var row, more := Row(Fields(subscribers[0])), Lines(Rows(subscribers[1..]));
      RowReads(Fields(subscribers[0]), more);
      RowsRead(subscribers[1..]);
      assert Rows(subscribers)[1..] == Rows(subscribers[1..]);
    }
  }

  function Print(subscribers: seq<Subscriber>): string { Lines([HEADER_LINE] + Rows(subscribers)) }

  /** The columns of the export: email, time, source, and a consent that is always given. */
  predicate IsTable(table: seq<seq<string>>, subscribers: seq<Subscriber>) {
    && |table| == |subscribers| + 1
    && table[0] == ["email", "timestamp", "source", "consent"]
    && forall k | 0 <= k < |subscribers| ::
      |table[k + 1]| == 4 && table[k + 1][0] == subscribers[k].email && table[k + 1][1] == subscribers[k].ts
      && table[k + 1][2] == subscribers[k].source && table[k + 1][3] == "true"
  }

  lemma {:induction false} FieldRowsAt(subscribers: seq<Subscriber>)
    ensures |FieldRows(subscribers)| == |subscribers|
    ensures forall k | 0 <= k < |subscribers| :: FieldRows(subscribers)[k] == Fields(subscribers[k])
  {
    hide Fields;
    if subscribers != [] { FieldRowsAt(subscribers[1..]); }
  }

  lemma FieldRowsAre(subscribers: seq<Subscriber>)
    ensures IsTable([HEADER] + FieldRows(subscribers), subscribers)
  {
    hide FieldRows;
    FieldRowsAt(subscribers);
    var table := [HEADER] + FieldRows(subscribers);
    assert forall k | 0 <= k < |subscribers| :: table[k + 1] == Fields(subscribers[k]);
  }

  /**
   Whatever the fields contain, a reader of the export gets exactly the header and, in each
   column of each record, what that column is for.
   */
  lemma ReadsBack(subscribers: seq<Subscriber>)
    ensures ReadFile(Print(subscribers)) == Some([HEADER] + FieldRows(subscribers))
    ensures IsTable(ReadFile(Print(subscribers)).value, subscribers)
  {
    hide ReadRecord, Rows, FieldRows;
    FieldRowsAre(subscribers);
    RowsRead(subscribers);
    HeaderReads(Lines(Rows(subscribers)));
    assert ([HEADER_LINE] + Rows(subscribers))[1..] == Rows(subscribers);
  }

  // ------------------------------------------------------------------------ handler

  function Concat(pages: seq<seq<string>>): seq<string> {
    if pages == [] then [] else pages[0] + Concat(pages[1..])
  }

  /** The subscriptions under these keys; missing and unreadable values are passed over. */
  function Subscribers(keys: seq<string>, values: map<string, Stored>): seq<Subscriber> {
    if keys == [] then []
    else
      var n := |keys| - 1;
      Subscribers(keys[..n], values)
      + if keys[n] in values && values[keys[n]].Record? then [values[keys[n]].subscriber] else []
  }

  /** `replace(/^Bearer\s+/i, "")`. */
  function StripBearer(h: string): string {
    if |h| > 6 && Lower(h[..6]) == "bearer" && IsSpace(h[6]) then TrimStart(h[6..]) else h
  }

  function Supplied(query: Option<string>, authorization: Option<string>): string {
    if query.Some? then query.value else if authorization.Some? then StripBearer(authorization.value) else ""
  }

  /**
   The token that counts: the query's, if there is one; else what follows a scheme "Bearer",
   in any case, and white space; a header without that is the token itself.
   */
  lemma TokenIs(scheme: string, space: string, token: string, query: string, other: string)
    requires Lower(scheme) == "bearer" && space != "" && Spaces(space) && (token != "" ==> !IsSpace(token[0]))
    requires |other| < 7 || Lower(other[..6]) != "bearer" || !IsSpace(other[6])
    ensures Supplied(None, Some(scheme + space + token)) == token
    ensures Supplied(None, Some(other)) == other && Supplied(None, None) == ""
    ensures Supplied(Some(query), Some(other)) == query == Supplied(Some(query), None)
  {
    hide Lower;
    var h := scheme + space + token;
    assert |scheme| == 6 by { LowerLength(scheme); }
    assert h[..6] == scheme && h[6] == space[0] && h[6..] == space + token;
    TrimStartDrops(space, token);
  }

  lemma LowerLength(s: string)
    ensures |Lower(s)| == |s|
  {
  }

  /** What the export answers. */
  function Answer(configured: string, supplied: string, kv: Option<Kv>): Response {
    if configured == "" then Error(503, "export_not_configured")
    else if supplied != configured then Error(401, "export_unauthorized")
    else if kv.None? then Error(503, "kv_unavailable")
    else Export(Print(Subscribers(Concat(kv.value.pages), kv.value.values)))
  }

  /**
   Something is exported exactly for the configured, nonempty token and with a store, and
   every other request gets the error for its reason; what is exported reads back as the
   header and one line per readable subscription, in the order of the listing.
   */
  lemma ExportReadsBack(configured: string, supplied: string, kv: Option<Kv>)
    ensures var answer := Answer(configured, supplied, kv);
      && (answer.Export? <==> supplied == configured != "" && kv.Some?)
      && (answer == Error(503, "export_not_configured") <==> configured == "")
      && (answer == Error(401, "export_unauthorized") <==> configured != "" && supplied != configured)
      && (answer == Error(503, "kv_unavailable") <==> supplied == configured != "" && kv.None?)
      && (answer.Export? ==>
            && ReadFile(answer.text).Some?
            && IsTable(ReadFile(answer.text).value, Subscribers(Concat(kv.value.pages), kv.value.values)))
  {
    hide ReadFile, FieldRows, Subscribers, Concat, Print, IsTable;
    if kv.Some? { ReadsBack(Subscribers(Concat(kv.value.pages), kv.value.values)); }
  }

  lemma {:induction false} RowsAppend(subscribers: seq<Subscriber>, s: Subscriber)
    ensures Rows(subscribers + [s]) == Rows(subscribers) + [Row(Fields(s))]
  {
    hide Row, Fields;
    if subscribers == [] {
      assert [] + [s] == [s] && [s][1..] == [];
    } else {
      RowsAppend(subscribers[1..], s);
      assert (subscribers + [s])[1..] == subscribers[1..] + [s];
    }
  }

  lemma {:induction false} ConcatAppend(pages: seq<seq<string>>, page: seq<string>)
    ensures Concat(pages + [page]) == Concat(pages) + page
  {
    if pages == [] {
      assert [] + [page] == [page] && [page][1..] == [] && page + [] == page;
    } else {
      ConcatAppend(pages[1..], page);
      assert (pages + [page])[1..] == pages[1..] + [page];
    }
  }

  /** `exportSubscribersHandler`. */
  method ExportSubscribers(configured: string, query: Option<string>, authorization: Option<string>, kv: Option<Kv>)
    returns (response: Response)
    ensures response == Answer(configured, Supplied(query, authorization), kv)
  {
    hide Rows, Lines, Row, StripBearer, Subscribers, Concat;
    if configured == "" {
      return Error(503, "export_not_configured");
    }
    var supplied := Supplied(query, authorization);
    if supplied == "" || supplied != configured {
      return Error(401, "export_unauthorized");
    }
    if kv.None? {
      return Error(503, "kv_unavailable");
    }
    var pages, values := kv.value.pages, kv.value.values;
    var rows := [HEADER_LINE];
    var more := true;
    var cursor := 0;
    Empty(values);
    assert pages[..0] == [];
    while more
      invariant cursor <= |pages| && (more || cursor == |pages|)
      invariant rows == [HEADER_LINE] + Rows(Subscribers(Concat(pages[..cursor]), values))
      decreases more, |pages| - cursor
    {
      var page := if cursor < |pages| then pages[cursor] else [];
      ghost var before := Concat(pages[..cursor]);
      assert before + page[..0] == before;
      for k := 0 to |page|
        invariant rows == [HEADER_LINE] + Rows(Subscribers(before + page[..k], values))
      {
        OneMore(before + page[..k], page[k], values);
        assert before + page[..k] + [page[k]] == before + page[..k + 1];
        if page[k] in values && values[page[k]].Record? {
          rows := rows + [Row(Fields(values[page[k]].subscriber))];
        }
      }
      assert page[..|page|] == page;
      if cursor < |pages| {
        ConcatAppend(pages[..cursor], page);
        assert pages[..cursor] + [page] == pages[..cursor + 1];
        cursor := cursor + 1;
      }
      more := cursor < |pages|;
    }
    assert pages[..cursor] == pages;
    response := Export(Lines(rows));
  }

  lemma Empty(values: map<string, Stored>)
    ensures Rows(Subscribers(Concat([]), values)) == []
  {
  }

  lemma OneMore(keys: seq<string>, key: string, values: map<string, Stored>)
    ensures Rows(Subscribers(keys + [key], values)) ==
      Rows(Subscribers(keys, values))
      + if key in values && values[key].Record? then [Row(Fields(values[key].subscriber))] else []
  {
    hide Rows, Row, Fields;
    assert (keys + [key])[..|keys|] == keys;
    assert Subscribers(keys, values) + [] == Subscribers(keys, values);
    assert Rows(Subscribers(keys, values)) + [] == Rows(Subscribers(keys, values));
    if key in values && values[key].Record? { RowsAppend(Subscribers(keys, values), values[key].subscriber); }
  }
}
