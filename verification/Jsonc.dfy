/**
 `parseJsonc` of scripts/dev-local.mjs up to the call of JSON.parse: the comment stripper,
 proved against a lossless lexer, and the trailing-comma replacement, which is not as
 careful about strings as the stripper is.
 */
module Jsonc {
  import Seqs
  import opened Texts

  // -------------------------------------------------------------------------- lexer

  /** How much of this text, which follows an opening quote, belongs to the string. */
  function StringLen(t: string): (n: nat)
    ensures n <= |t|
  {
    if t == "" then 0
    else if t[0] == '\\' then if |t| == 1 then 1 else 2 + StringLen(t[2..])
    else if t[0] == '"' then 1
    else 1 + StringLen(t[1..])
  }

  /** The string is closed by a quote. */
  predicate Terminated(t: string) {
    if t == "" then false
    else if t[0] == '\\' then |t| > 1 && Terminated(t[2..])
    else if t[0] == '"' then true
    else Terminated(t[1..])
  }

  /** The text ends inside the string, right after a backslash. */
  predicate Dangling(t: string) {
    if t == "" then false
    else if t[0] == '\\' then |t| == 1 || Dangling(t[2..])
    else if t[0] == '"' then false
    else Dangling(t[1..])
  }

  /** A line comment reaches through the next newline. */
  function LineLen(t: string): (n: nat)
    ensures n <= |t|
  {
    if t == "" then 0 else if t[0] == '\n' then 1 else 1 + LineLen(t[1..])
  }

  predicate ClosesBlock(t: string) { |t| >= 2 && t[0] == '*' && t[1] == '/' }

  /** A block comment, after its opener, reaches through the next closer. */
  function BlockLen(t: string): (n: nat)
    ensures n <= |t|
  {
    if t == "" then 0 else if ClosesBlock(t) then 2 else 1 + BlockLen(t[1..])
  }

  predicate IsLiteral(t: string) { t != "" && t[0] == '"' }
  predicate IsLine(t: string) { |t| >= 2 && t[0] == '/' && t[1] == '/' }
  predicate IsBlock(t: string) { |t| >= 2 && t[0] == '/' && t[1] == '*' }
  predicate IsComment(t: string) { IsLine(t) || IsBlock(t) }

  function TokenLen(t: string): (n: nat)
    requires t != ""
    ensures 1 <= n <= |t|
  {
    if IsLiteral(t) then 1 + StringLen(t[1..])
    else if IsLine(t) then LineLen(t)
    else if IsBlock(t) then 2 + BlockLen(t[2..])
    else 1
  }

  /** A text as string literals, comments and single characters. */
  function Lex(t: string): seq<string> {
    if t == "" then [] else [t[..TokenLen(t)]] + Lex(t[TokenLen(t)..])
  }

  function Flat(tokens: seq<string>): string {
    if tokens == [] then "" else tokens[0] + Flat(tokens[1..])
  }

  /** Lexing loses nothing. */
  lemma {:induction false} LexIsLossless(t: string)
    ensures Flat(Lex(t)) == t
  {
    if t != "" {
      LexIsLossless(t[TokenLen(t)..]);
      assert t == t[..TokenLen(t)] + t[TokenLen(t)..];
    }
  }

  /** What the stripper makes of one token. */
  function Render(token: string): seq<string> {
    if IsBlock(token) then []
    else if IsLine(token) then ["\n"]
    else if IsLiteral(token) && Dangling(token[1..]) then [token + "undefined"]
    else [token]
  }

  function Uncommented(tokens: seq<string>): seq<string> {
    if tokens == [] then [] else Render(tokens[0]) + Uncommented(tokens[1..])
  }

  /** The text without comments, as a function of its tokens. */
  function Strip(t: string): string { Flat(Uncommented(Lex(t))) }

  // ----------------------------------------------------------------------- the loop

  lemma {:induction false} FlatAppend(a: seq<string>, b: seq<string>)
    ensures Flat(a + b) == Flat(a) + Flat(b)
  {
    if a == [] {
      assert a + b == b;
    } else {
      assert (a + b)[1..] == a[1..] + b;
      FlatAppend(a[1..], b);
    }
  }

  lemma StripUnfold(t: string)
    requires t != ""
    ensures Strip(t) == Flat(Render(t[..TokenLen(t)])) + Strip(t[TokenLen(t)..])
  {
    hide TokenLen, Render;
    FlatAppend(Render(t[..TokenLen(t)]), Uncommented(Lex(t[TokenLen(t)..])));
  }

  lemma FlatOne(x: string)
    ensures Flat([x]) == x
  {
  }

  /** What is left of a string literal, as the stripper copies it. */
  function StringRest(t: string): string {
    t[..StringLen(t)] + if Dangling(t) then "undefined" else ""
  }

  /** What the loop still has to write. */
  function Pending(inString: bool, t: string): string {
    if inString then StringRest(t) + Strip(t[StringLen(t)..]) else Strip(t)
  }

  function Rest(text: string, i: nat): string { if i <= |text| then text[i..] else "" }

  lemma {:induction false} DanglingPrefix(t: string)
    ensures Dangling(t[..StringLen(t)]) == Dangling(t)
  {
    if t != "" && t[0] == '\\' && |t| > 1 {
      DanglingPrefix(t[2..]);
      assert t[..StringLen(t)][2..] == t[2..][..StringLen(t[2..])];
    } else if t != "" && t[0] != '\\' && t[0] != '"' {
      DanglingPrefix(t[1..]);
      assert t[..StringLen(t)][1..] == t[1..][..StringLen(t[1..])];
    }
  }

  lemma LiteralToken(b: string)
    ensures var t := "\"" + b;
      TokenLen(t) == 1 + StringLen(b) && Flat(Render(t[..TokenLen(t)])) == "\"" + StringRest(b)
  {
    hide StringLen, Dangling, LineLen, BlockLen, Flat;
    var t := "\"" + b;
    var n := StringLen(b);
    DanglingPrefix(b);
    assert t[1..] == b;
    assert t[..1 + n] == "\"" + b[..n];
    assert t[..1 + n][1..] == b[..n];
    FlatOne(t[..1 + n]);
    FlatOne(t[..1 + n] + "undefined");
    assert "\"" + b[..n] + "undefined" == "\"" + (b[..n] + "undefined");
    assert "\"" + (b[..n] + "") == "\"" + b[..n];
  }

  lemma QuoteStep(t: string)
    requires IsLiteral(t)
    ensures Strip(t) == "\"" + Pending(true, t[1..])
  {
    hide Strip, TokenLen, Render, StringLen, StringRest;
    var b := t[1..];
    assert t == "\"" + b;
    LiteralToken(b);
    StripUnfold(t);
    assert t[1 + StringLen(b)..] == b[StringLen(b)..];
    assert ("\"" + StringRest(b)) + Strip(b[StringLen(b)..]) == "\"" + (StringRest(b) + Strip(b[StringLen(b)..]));
  }

  /** One character of a string, with the character after a backslash. */
  lemma StringStep(t: string)
    requires t != ""
    ensures t[0] == '\\' && |t| == 1 ==> Pending(true, t) == t + "undefined" + Strip("")
    ensures t[0] == '\\' && |t| > 1 ==> Pending(true, t) == t[..2] + Pending(true, t[2..])
    ensures t[0] == '"' ==> Pending(true, t) == "\"" + Strip(t[1..])
    ensures t[0] != '\\' && t[0] != '"' ==> Pending(true, t) == t[..1] + Pending(true, t[1..])
  {
    hide Strip, Pending;
    if t[0] == '\\' && |t| > 1 {
      StringMove(t, 2);
    } else if t[0] != '\\' && t[0] != '"' {
      StringMove(t, 1);
    } else {
      StringEnd(t);
    }
  }

  lemma StringMove(t: string, k: nat)
    requires k <= |t| && StringLen(t) == k + StringLen(t[k..]) && Dangling(t) == Dangling(t[k..])
    ensures Pending(true, t) == t[..k] + Pending(true, t[k..])
  {
    hide Strip, Dangling, StringLen, Pending;
    var rest, n := t[k..], StringLen(t[k..]);
    var tail := if Dangling(t) then "undefined" else "";
    PendingString(t);
    PendingString(rest);
    var a, b, d := t[..k], rest[..n], Strip(rest[n..]);
    assert Pending(true, t) == ((a + b) + tail) + d;
    Regroup(a, b, tail, d);
  }

  lemma PendingString(t: string)
    ensures Pending(true, t) == (t[..StringLen(t)] + if Dangling(t) then "undefined" else "") + Strip(t[StringLen(t)..])
  {
    hide Strip, Dangling, StringLen;
  }

  lemma Regroup(a: string, b: string, c: string, d: string)
    ensures ((a + b) + c) + d == a + ((b + c) + d)
  {
  }

  lemma StringEnd(t: string)
    requires t != "" && (t[0] == '"' || t == "\\")
    ensures t[0] == '"' ==> Pending(true, t) == "\"" + Strip(t[1..])
    ensures t == "\\" ==> Pending(true, t) == t + "undefined" + Strip("")
  {
    hide Strip;
    assert t[0] == '"' ==> t[..1] == "\"" && t[..1] + "" == "\"";
    assert t == "\\" ==> t[1..] == "" && t[..1] == t;
  }

  lemma {:induction false} LinePrefix(t: string, i: nat)
    requires IsLine(t) && i == LineLen(t)
    ensures IsLine(t[..i]) && i >= 2
  {
    assert LineLen(t) == 1 + LineLen(t[1..]);
    assert t[1..][0] == '/';
  }

  lemma CommentStep(t: string)
    requires IsComment(t)
    ensures IsLine(t) ==> Strip(t) == "\n" + Strip(t[LineLen(t)..])
    ensures IsBlock(t) ==> Strip(t) == Strip(t[2 + BlockLen(t[2..])..])
  {
    hide Strip, LineLen, BlockLen;
    StripUnfold(t);
    if IsLine(t) {
      LinePrefix(t, LineLen(t));
      FlatOne("\n");
    }
  }

  lemma CodeStep(t: string)
    requires t != "" && !IsLiteral(t) && !IsComment(t)
    ensures Strip(t) == t[..1] + Strip(t[1..])
  {
    hide Strip;
    StripUnfold(t);
    FlatOne(t[..1]);
  }

  lemma NothingPending(inString: bool)
    ensures Pending(inString, "") == ""
  {
  }

  /** The invariant of the loop: what is written and what is pending make up the result. */
  ghost predicate Written(out: string, inString: bool, text: string, i: nat) {
    out + Pending(inString, Rest(text, i)) == Strip(text)
  }

  lemma WrittenAll(out: string, inString: bool, text: string, i: nat)
    requires i >= |text|
    ensures Written(out, inString, text, i) <==> out == Strip(text)
  {
    NothingPending(inString);
    assert Rest(text, i) == "" && out + "" == out;
  }

  lemma NothingWritten(text: string)
    ensures Written("", false, text, 0)
  {
    hide Strip;
    assert text[0..] == text && "" + Strip(text) == Strip(text);
  }

  /** One turn of the loop inside a string. */
  lemma InString(text: string, i: nat, out: string)
    requires i < |text| && Written(out, true, text, i)
    ensures text[i] == '\\' ==>
      Written(out + [text[i]] + (if i + 1 < |text| then [text[i + 1]] else "undefined"), true, text, i + 2)
    ensures text[i] == '"' ==> Written(out + [text[i]], false, text, i + 1)
    ensures text[i] != '\\' && text[i] != '"' ==> Written(out + [text[i]], true, text, i + 1)
  {
    hide Strip, Pending;
    var t := text[i..];
    StringStep(t);
    NothingPending(true);
    NothingPending(false);
    PendingCode("");
    PendingCode(t[1..]);
    assert t[1..] == text[i + 1..] && t[..1] == [text[i]];
    Seqs.Assoc(out, t[..1], Pending(true, t[1..]));
    if |t| > 1 {
      assert t[2..] == text[i + 2..] && t[..2] == [text[i]] + [text[i + 1]];
      Seqs.Assoc(out, t[..2], Pending(true, t[2..]));
      Seqs.Assoc(out, [text[i]], [text[i + 1]]);
    } else {
      assert t == [text[i]];
    }
  }

  predicate CommentAt(text: string, i: nat, second: char)
    requires i < |text|
  {
    text[i] == '/' && i + 1 < |text| && text[i + 1] == second
  }

  /** One turn of the loop outside strings. */
  lemma InCode(text: string, i: nat, out: string)
    requires i < |text| && Written(out, false, text, i)
    ensures text[i] == '"' ==> Written(out + [text[i]], true, text, i + 1)
    ensures CommentAt(text, i, '/') ==> Written(out + "\n", false, text, i + LineLen(Rest(text, i)))
    ensures CommentAt(text, i, '*') ==> Written(out, false, text, i + 2 + BlockLen(Rest(text, i + 2)))
    ensures text[i] != '"' && !CommentAt(text, i, '/') && !CommentAt(text, i, '*') ==>
      Written(out + [text[i]], false, text, i + 1)
  {
    hide Written, LineLen, BlockLen;
    if text[i] == '"' {
      QuoteTurn(text, i, out);
    } else if CommentAt(text, i, '/') {
      LineTurn(text, i, out);
    } else if CommentAt(text, i, '*') {
      BlockTurn(text, i, out);
    } else {
      CodeTurn(text, i, out);
    }
  }

  lemma QuoteTurn(text: string, i: nat, out: string)
    requires i < |text| && text[i] == '"' && Written(out, false, text, i)
    ensures Written(out + [text[i]], true, text, i + 1)
  {
    hide Strip, Pending;
    PendingCode(text[i..]);
    QuoteStep(text[i..]);
    assert text[i..][1..] == text[i + 1..];
    Seqs.Assoc(out, "\"", Pending(true, text[i + 1..]));
  }

  lemma LineTurn(text: string, i: nat, out: string)
    requires i < |text| && CommentAt(text, i, '/') && Written(out, false, text, i)
    ensures Written(out + "\n", false, text, i + LineLen(Rest(text, i)))
  {
    hide Strip, Pending, LineLen, BlockLen;
    var t := text[i..];
    CommentStep(t);
    PendingCode(t);
    PendingCode(t[LineLen(t)..]);
    assert t[LineLen(t)..] == text[i + LineLen(t)..];
    Seqs.Assoc(out, "\n", Strip(t[LineLen(t)..]));
  }

  lemma BlockTurn(text: string, i: nat, out: string)
    requires i < |text| && CommentAt(text, i, '*') && Written(out, false, text, i)
    ensures Written(out, false, text, i + 2 + BlockLen(Rest(text, i + 2)))
  {
    hide Strip, Pending, LineLen, BlockLen;
    var t := text[i..];
    CommentStep(t);
    PendingCode(t);
    assert t[2..] == text[i + 2..];
    PendingCode(t[2 + BlockLen(t[2..])..]);
    assert t[2 + BlockLen(t[2..])..] == text[i + 2 + BlockLen(t[2..])..];
  }

  lemma CodeTurn(text: string, i: nat, out: string)
    requires i < |text| && text[i] != '"' && !CommentAt(text, i, '/') && !CommentAt(text, i, '*')
    requires Written(out, false, text, i)
    ensures Written(out + [text[i]], false, text, i + 1)
  {
    hide Strip, Pending;
    var t := text[i..];
    CodeStep(t);
    PendingCode(t);
    PendingCode(t[1..]);
    assert t[1..] == text[i + 1..] && t[..1] == [text[i]];
    Seqs.Assoc(out, t[..1], Strip(t[1..]));
  }

  /** The character loop of `parseJsonc`. */
  method StripComments(text: string) returns (out: string)
    ensures out == Strip(text)
  {
    hide Strip, Written, LineLen, BlockLen, Rest;
    out := "";
    var inString := false;
    var i: nat := 0;
    NothingWritten(text);
    while i < |text|
      invariant Written(out, inString, text, i)
    {
      var ch := text[i];
      if inString {
        InString(text, i, out);
        out := out + [ch];
        if ch == '\\' {
          out := out + if i + 1 < |text| then [text[i + 1]] else "undefined";
          i := i + 1;
        } else if ch == '"' {
          inString := false;
        }
      } else {
        InCode(text, i, out);
        if ch == '"' {
          inString := true;
          out := out + [ch];
        } else if ch == '/' && i + 1 < |text| && text[i + 1] == '/' {
          ghost var end := i + LineLen(Rest(text, i));
          while i < |text| && text[i] != '\n'
            invariant end == i + LineLen(Rest(text, i))
          {
            LineStep(text, i);
            i := i + 1;
          }
          out := out + "\n";
          LineDone(text, i, out);
        } else if ch == '/' && i + 1 < |text| && text[i + 1] == '*' {
          i := i + 2;
          ghost var end := i + BlockLen(Rest(text, i));
          while i < |text| && !(text[i] == '*' && i + 1 < |text| && text[i + 1] == '/')
            invariant end == i + BlockLen(Rest(text, i))
          {
            BlockStep(text, i);
            i := i + 1;
          }
          BlockDone(text, i, out);
          i := i + 1;
        } else {
          out := out + [ch];
        }
      }
      i := i + 1;
    }
    WrittenAll(out, inString, text, i);
  }

  /** The line comment ends at a newline, which the loop skips, or with the text. */
  lemma LineDone(text: string, i: nat, out: string)
    requires Written(out, false, text, i + LineLen(Rest(text, i)))
    requires i < |text| ==> text[i] == '\n'
    ensures Written(out, false, text, i + 1)
  {
    hide Written;
    LineStep(text, i);
    if i >= |text| {
      WrittenAll(out, false, text, i);
      WrittenAll(out, false, text, i + 1);
    }
  }

  lemma BlockDone(text: string, i: nat, out: string)
    requires Written(out, false, text, i + BlockLen(Rest(text, i)))
    requires i < |text| ==> text[i] == '*' && i + 1 < |text| && text[i + 1] == '/'
    ensures Written(out, false, text, i + 2)
  {
    hide Written;
    BlockStep(text, i);
    if i >= |text| {
      WrittenAll(out, false, text, i);
      WrittenAll(out, false, text, i + 2);
    }
  }

  lemma PendingCode(t: string)
    ensures Pending(false, t) == Strip(t)
  {
    hide Strip;
  }

  lemma LineStep(text: string, i: nat)
    ensures i >= |text| ==> LineLen(Rest(text, i)) == 0
    ensures i < |text| ==> LineLen(Rest(text, i)) == if text[i] == '\n' then 1 else 1 + LineLen(Rest(text, i + 1))
  {
    if i < |text| { assert text[i..][1..] == text[i + 1..]; }
  }

  lemma BlockStep(text: string, i: nat)
    ensures i >= |text| ==> BlockLen(Rest(text, i)) == 0
    ensures i < |text| ==> (BlockLen(Rest(text, i)) ==
      if text[i] == '*' && i + 1 < |text| && text[i + 1] == '/' then 2 else 1 + BlockLen(Rest(text, i + 1)))
  {
    if i < |text| { assert text[i..][1..] == text[i + 1..]; }
  }

  // ----------------------------------------------------------- what stripping leaves

  /** A token the stripper copies as it is. */
  predicate Kept(token: string) { !IsComment(token) && !(IsLiteral(token) && Dangling(token[1..])) }

  lemma {:induction false} TerminatedAppend(a: string, r: string)
    requires Terminated(a)
    ensures Terminated(a + r) && StringLen(a + r) == StringLen(a) && !Dangling(a)
  {
    if a[0] == '\\' {
      TerminatedAppend(a[2..], r);
      assert (a + r)[2..] == a[2..] + r;
    } else if a[0] != '"' {
      TerminatedAppend(a[1..], r);
      assert (a + r)[1..] == a[1..] + r;
    }
  }

  /** A string that is not closed takes the rest of the text, also with "undefined" appended. */
  lemma UnterminatedReaches(b: string)
    requires !Terminated(b)
    ensures StringLen(b) == |b|
    ensures Dangling(b) ==>
      !Terminated(b + "undefined") && !Dangling(b + "undefined") && StringLen(b + "undefined") == |b| + 9
  {
    TakesAll(b);
    if Dangling(b) {
      DanglingEnds(b);
      TakesAll(b + "undefined");
    }
  }

  lemma {:induction false} TakesAll(b: string)
    requires !Terminated(b)
    ensures StringLen(b) == |b|
  {
    if b != "" && b != "\\" { TakesAll(b[if b[0] == '\\' then 2 else 1..]); }
  }

  lemma {:induction false} DanglingEnds(b: string)
    requires Dangling(b)
    ensures !Terminated(b + "undefined") && !Dangling(b + "undefined")
  {
    if b == "\\" {
      PlainString("ndefined");
      assert (b + "undefined")[2..] == "ndefined";
    } else {
      var k := if b[0] == '\\' then 2 else 1;
      DanglingEnds(b[k..]);
      assert (b + "undefined")[k..] == b[k..] + "undefined";
    }
  }

  lemma {:induction false} PlainString(b: string)
    requires '"' !in b && '\\' !in b
    ensures !Terminated(b) && !Dangling(b) && StringLen(b) == |b|
  {
    if b != "" { PlainString(b[1..]); }
  }

  lemma LexCons(x: string, tokens: seq<string>)
    requires x != "" && Lex(Flat(tokens)) == tokens && TokenLen(x + Flat(tokens)) == |x|
    ensures Lex(Flat([x] + tokens)) == [x] + tokens
  {
    hide TokenLen;
    var t := x + Flat(tokens);
    assert ([x] + tokens)[1..] == tokens;
    assert t[..|x|] == x && t[|x|..] == Flat(tokens);
  }

  /** Only a comment can make the first character disappear. */
  lemma FirstKept(t: string)
    requires t != "" && !IsComment(t)
    ensures Strip(t) != "" && Strip(t)[0] == t[0]
  {
    hide Strip, Pending;
    if IsLiteral(t) { QuoteStep(t); } else { CodeStep(t); }
  }

  /** The tokens of the stripped text are the tokens of the text without comments. */
  lemma {:induction false} StripLexes(t: string)
    ensures Lex(Strip(t)) == Uncommented(Lex(t))
  {
    if t != "" {
      var n := TokenLen(t);
      StripLexes(t[n..]);
      RenderLexes(t, Uncommented(Lex(t[n..])));
    }
  }

  lemma RenderLexes(t: string, rest: seq<string>)
    requires t != "" && rest == Uncommented(Lex(t[TokenLen(t)..])) && Lex(Flat(rest)) == rest
    ensures Lex(Flat(Render(t[..TokenLen(t)]) + rest)) == Render(t[..TokenLen(t)]) + rest
  {
    hide Lex, Flat, LineLen, BlockLen, Uncommented;
    var n := TokenLen(t);
    if IsLiteral(t) {
      LiteralLexes(t, rest);
    } else if IsLine(t) {
      LinePrefix(t, n);
      LexCons("\n", rest);
    } else if IsBlock(t) {
      assert IsBlock(t[..n]);
      assert [] + rest == rest;
    } else {
      CodeLexes(t, rest);
    }
  }

  lemma CodeLexes(t: string, rest: seq<string>)
    requires t != "" && !IsLiteral(t) && !IsComment(t)
    requires rest == Uncommented(Lex(t[1..])) && Lex(Flat(rest)) == rest
    ensures Lex(Flat([t[..1]] + rest)) == [t[..1]] + rest
  {
    hide Lex, Flat, Uncommented;
    if t[0] == '/' && |t| > 1 {
      FirstKept(t[1..]);
    }
    EmptyStrip();
    assert t[1..] == "" || t[1..][0] == t[1];
    LexCons(t[..1], rest);
  }

  lemma EmptyStrip()
    ensures Lex("") == [] && Uncommented([]) == [] && Flat([]) == "" && Strip("") == ""
  {
  }

  lemma LiteralLexes(t: string, rest: seq<string>)
    requires IsLiteral(t) && rest == Uncommented(Lex(t[TokenLen(t)..])) && Lex(Flat(rest)) == rest
    ensures Lex(Flat(Render(t[..TokenLen(t)]) + rest)) == Render(t[..TokenLen(t)]) + rest
  {
    hide Lex, Flat, Uncommented, Terminated, Dangling, StringLen;
    var n := TokenLen(t);
    var b, x := t[1..], t[..n];
    DanglingPrefix(b);
    assert x[1..] == b[..n - 1];
    if Terminated(b) {
      TerminatedPrefix(b);
      TerminatedAppend(b[..n - 1], Flat(rest));
      TerminatedAppend(b, "");
      assert (x + Flat(rest))[1..] == b[..n - 1] + Flat(rest);
      LexCons(x, rest);
    } else {
      UnterminatedReaches(b);
      EmptyStrip();
      assert n == |t| && t[n..] == "";
      assert x == t;
      if Dangling(b) {
        assert (x + "undefined")[1..] == b + "undefined";
        assert x + "undefined" + "" == x + "undefined";
        LexCons(x + "undefined", rest);
      } else {
        assert x + "" == x;
        LexCons(x, rest);
      }
    }
  }

  lemma {:induction false} TerminatedPrefix(b: string)
    requires Terminated(b)
    ensures Terminated(b[..StringLen(b)]) && StringLen(b[..StringLen(b)]) == StringLen(b)
  {
    var p := b[..StringLen(b)];
    if b[0] == '\\' {
      TerminatedPrefix(b[2..]);
      assert p[2..] == b[2..][..StringLen(b[2..])];
    } else if b[0] != '"' {
      TerminatedPrefix(b[1..]);
      assert p[1..] == b[1..][..StringLen(b[1..])];
    }
  }

  lemma RenderKept(token: string)
    ensures Kept(token) ==> Render(token) == [token]
    ensures |Render(token)| <= 1 && forall k | 0 <= k < |Render(token)| :: Kept(Render(token)[k])
  {
    hide Terminated, StringLen;
    if IsLiteral(token) && Dangling(token[1..]) {
      if Terminated(token[1..]) { TerminatedAppend(token[1..], ""); }
      UnterminatedReaches(token[1..]);
      assert (token + "undefined")[1..] == token[1..] + "undefined";
    }
  }

  lemma {:induction false} UncommentedKept(tokens: seq<string>)
    ensures forall k | 0 <= k < |Uncommented(tokens)| :: Kept(Uncommented(tokens)[k])
    ensures (forall k | 0 <= k < |tokens| :: Kept(tokens[k])) ==> Uncommented(tokens) == tokens
  {
    hide Render, Kept;
    if tokens != [] {
      UncommentedKept(tokens[1..]);
      RenderKept(tokens[0]);
      assert tokens == [tokens[0]] + tokens[1..];
    }
  }

  /** Exactly the texts without comments and without a dangling escape are left alone. */
  lemma StripIsIdentity(t: string)
    ensures Strip(t) == t <==> forall k | 0 <= k < |Lex(t)| :: Kept(Lex(t)[k])
  {
    hide Lex, Flat, Uncommented, Kept;
    LexIsLossless(t);
    StripLexes(t);
    UncommentedKept(Lex(t));
  }

  lemma StripIsIdempotent(t: string)
    ensures Strip(Strip(t)) == Strip(t)
  {
    hide Lex, Flat, Uncommented, Kept;
    StripLexes(t);
    UncommentedKept(Lex(t));
    StripIsIdentity(Strip(t));
  }

  function Literals(tokens: seq<string>): seq<string> {
    if tokens == [] then []
    else (if IsLiteral(tokens[0]) then [tokens[0]] else []) + Literals(tokens[1..])
  }

  /** No string literal is dangling: the text does not end in a backslash inside a string. */
  predicate NoneDangling(tokens: seq<string>) {
    forall k | 0 <= k < |tokens| :: IsLiteral(tokens[k]) ==> !Dangling(tokens[k][1..])
  }

  lemma {:induction false} UncommentedLiterals(tokens: seq<string>)
    requires NoneDangling(tokens)
    ensures Literals(Uncommented(tokens)) == Literals(tokens)
  {
    hide Dangling;
    if tokens != [] {
      UncommentedLiterals(tokens[1..]);
      var x := Render(tokens[0]);
      var rest := Uncommented(tokens[1..]);
      if x == [] { assert x + rest == rest; } else { assert x == [x[0]] && (x + rest)[1..] == rest; }
    }
  }

  /**
   Stripping leaves no comment outside strings, and every string literal, in order, as it
   was written.
   */
  lemma LiteralsVerbatim(t: string)
    ensures forall k | 0 <= k < |Lex(Strip(t))| :: !IsComment(Lex(Strip(t))[k])
    ensures NoneDangling(Lex(t)) ==> Literals(Lex(Strip(t))) == Literals(Lex(t))
  {
    hide Lex, Flat, Uncommented, Literals;
    StripLexes(t);
    UncommentedKept(Lex(t));
    assert forall k | 0 <= k < |Lex(Strip(t))| :: Kept(Lex(Strip(t))[k]);
    if NoneDangling(Lex(t)) { UncommentedLiterals(Lex(t)); }
  }

  // -------------------------------------------------------------------- the stripper's laws

  lemma StripToken(t: string)
    requires t != ""
    ensures Strip(t) == Flat(Render(t[..TokenLen(t)])) + Strip(t[TokenLen(t)..])
  {
    hide Render, TokenLen;
    FlatAppend(Render(t[..TokenLen(t)]), Uncommented(Lex(t[TokenLen(t)..])));
  }

  lemma {:induction false} LineEnds(x: string, r: string)
    requires '\n' !in x
    ensures LineLen(x + "\n" + r) == |x| + 1 && LineLen(x) == |x|
  {
    if x == "" {
      assert x + "\n" + r == "\n" + r;
    } else {
      LineEnds(x[1..], r);
      assert (x + "\n" + r)[1..] == x[1..] + "\n" + r;
    }
  }

  /** A line comment, through its newline or the end of the text, becomes a newline. */
  lemma LineGoes(x: string, r: string)
    requires '\n' !in x
    ensures Strip("//" + x + "\n" + r) == "\n" + Strip(r) && Strip("//" + x) == "\n"
  {
    hide Strip;
    var slashes := "//" + x;
    LineEnds(slashes, r);
    var t := slashes + "\n" + r;
    assert t[..|slashes| + 1] == slashes + "\n" && t[|slashes| + 1..] == r;
    StripToken(t);
    StripToken(slashes);
    FlatOne("\n");
    EmptyStrip();
    assert slashes[..|slashes|] == slashes && slashes[|slashes|..] == "";
    assert "\n" + "" == "\n";
  }

  /** The first closer is at the end. */
  predicate ClosesAtEnd(x: string) { forall k | 0 <= k < |x| :: !CloserAt(x + "*/", k) }

  predicate CloserAt(t: string, k: int) { 0 <= k < |t| - 1 && t[k] == '*' && t[k + 1] == '/' }

  lemma {:induction false} BlockEnds(x: string, r: string)
    requires ClosesAtEnd(x)
    ensures BlockLen(x + "*/" + r) == |x| + 2
  {
    if x == "" {
      assert x + "*/" + r == "*/" + r;
    } else {
      assert !CloserAt(x + "*/", 0);
      forall k | 0 <= k < |x[1..]| ensures !CloserAt(x[1..] + "*/", k) {
        assert !CloserAt(x + "*/", k + 1);
      }
      BlockEnds(x[1..], r);
      assert (x + "*/" + r)[1..] == x[1..] + "*/" + r;
    }
  }

  /** A block comment, through its first closer, goes. */
  lemma BlockGoes(x: string, r: string)
    requires ClosesAtEnd(x)
    ensures Strip("/*" + x + "*/" + r) == Strip(r)
  {
    hide Strip;
    var t := "/*" + x + "*/" + r;
    assert t[2..] == x + "*/" + r;
    BlockEnds(x, r);
    assert t[|x| + 4..] == r;
    StripToken(t);
    assert Flat([]) == "" && "" + Strip(r) == Strip(r);
  }

  /** The inside of a string literal: no bare quote, and a character after every backslash. */
  predicate Inside(b: string) {
    b == "" || (if b[0] == '\\' then |b| > 1 && Inside(b[2..]) else b[0] != '"' && Inside(b[1..]))
  }

  lemma {:induction false} StringEnds(b: string, r: string)
    requires Inside(b)
    ensures StringLen(b + "\"" + r) == |b| + 1 && !Dangling(b + "\"")
  {
    if b == "" {
      assert b + "\"" + r == "\"" + r;
    } else if b[0] == '\\' {
      StringEnds(b[2..], r);
      assert (b + "\"" + r)[2..] == b[2..] + "\"" + r && (b + "\"")[2..] == b[2..] + "\"";
    } else {
      StringEnds(b[1..], r);
      assert (b + "\"" + r)[1..] == b[1..] + "\"" + r && (b + "\"")[1..] == b[1..] + "\"";
    }
  }

  /** A string literal stays, whatever is in it, and so does every other character. */
  lemma StringStays(b: string, r: string)
    requires Inside(b)
    ensures Strip("\"" + b + "\"" + r) == "\"" + b + "\"" + Strip(r)
  {
    hide Strip, Dangling, StringLen;
    var t := "\"" + b + "\"" + r;
    assert t[1..] == b + "\"" + r;
    StringEnds(b, r);
    var token := "\"" + b + "\"";
    assert t[..|b| + 2] == token && t[|b| + 2..] == r && token[1..] == b + "\"";
    StripToken(t);
    FlatOne(token);
  }

  lemma CharacterStays(c: char, r: string)
    requires c != '"' && !(c == '/' && r != "" && r[0] in {'/', '*'})
    ensures Strip([c] + r) == [c] + Strip(r) && Strip("") == ""
  {
    hide Strip;
    var t := [c] + r;
    assert t[..1] == [c] && t[1..] == r;
    StripToken(t);
    FlatOne([c]);
    EmptyStrip();
  }

  // ---------------------------------------------------------------- trailing commas

  /** White space and then a closing bracket. */
  predicate Closes(t: string) {
    t != "" && if IsSpace(t[0]) then Closes(t[1..]) else t[0] == '}' || t[0] == ']'
  }

  /** `replace(/,(\\s*[}\\]])/g, "$1")`. */
  function DropCommas(t: string): string {
    if t == "" then ""
    else if t[0] == ',' && Closes(t[1..]) then DropCommas(t[1..])
    else [t[0]] + DropCommas(t[1..])
  }

  /** The text that JSON.parse gets. */
  function Parsed(t: string): string { DropCommas(Strip(t)) }

  predicate TrailingComma(t: string) { exists i :: 0 <= i < |t| && CommaAt(t, i) }

  predicate CommaAt(t: string, i: nat)
    requires i < |t|
  {
    t[i] == ',' && Closes(t[i + 1..])
  }

  lemma TrailingUnfold(t: string)
    requires t != ""
    ensures TrailingComma(t) <==> CommaAt(t, 0) || TrailingComma(t[1..])
  {
    if TrailingComma(t) {
      var i :| 0 <= i < |t| && CommaAt(t, i);
      if i > 0 { assert t[i + 1..] == t[1..][i - 1 + 1..] && CommaAt(t[1..], i - 1); }
    }
    if TrailingComma(t[1..]) {
      var i :| 0 <= i < |t[1..]| && CommaAt(t[1..], i);
      assert t[i + 1 + 1..] == t[1..][i + 1..] && CommaAt(t, i + 1);
    }
  }

  /** Only a comma before a closing bracket is dropped, and each one is. */
  lemma {:induction false} DropIsIdentity(t: string)
    ensures |DropCommas(t)| <= |t|
    ensures DropCommas(t) == t <==> !TrailingComma(t)
  {
    hide Closes;
    if t != "" {
      TrailingUnfold(t);
      DropIsIdentity(t[1..]);
      assert t == [t[0]] + t[1..];
    }
  }

  /** A closed string literal, or one character. */
  predicate Whole(token: string) {
    if IsLiteral(token) then Terminated(token[1..]) && StringLen(token[1..]) == |token| - 1 else |token| == 1
  }

  lemma {:induction false} LastIsQuote(b: string)
    requires Terminated(b) && StringLen(b) == |b|
    ensures b[|b| - 1] == '"'
  {
    if b[0] == '\\' { LastIsQuote(b[2..]); } else if b[0] != '"' { LastIsQuote(b[1..]); }
  }

  lemma {:induction false} ClosesAppend(a: string, r: string)
    requires a != "" && a[|a| - 1] == '"'
    ensures Closes(a + r) == Closes(a)
  {
    if |a| > 1 && IsSpace(a[0]) {
      ClosesAppend(a[1..], r);
      assert (a + r)[1..] == a[1..] + r;
    }
  }

  /** A match does not reach past a quote. */
  lemma {:induction false} DropSplit(a: string, r: string)
    requires a != "" && a[|a| - 1] == '"'
    ensures DropCommas(a + r) == DropCommas(a) + DropCommas(r)
  {
    hide Closes, IsSpace;
    assert (a + r)[1..] == a[1..] + r;
    if |a| > 1 {
      ClosesAppend(a[1..], r);
      DropSplit(a[1..], r);
    } else {
      assert a == "\"" && a[1..] + r == r;
    }
  }

  /** A string literal with commas dropped is still one string literal. */
  lemma {:induction false} DropKeepsString(b: string)
    requires Terminated(b) && StringLen(b) == |b|
    ensures Terminated(DropCommas(b)) && StringLen(DropCommas(b)) == |DropCommas(b)|
    decreases |b|
  {
    if b[0] == '\\' {
      DropEscape(b);
    } else if b[0] != '"' {
      DropKeepsString(b[1..]);
      if !CommaAt(b, 0) { assert DropCommas(b)[1..] == DropCommas(b[1..]); }
    } else {
      assert b[1..] == "";
    }
  }

  lemma DropEscape(b: string)
    requires Terminated(b) && StringLen(b) == |b| && b[0] == '\\'
    ensures Terminated(DropCommas(b)) && StringLen(DropCommas(b)) == |DropCommas(b)|
    decreases |b|, 0
  {
    var d := DropCommas(b);
    assert d == ['\\'] + DropCommas(b[1..]) && b[1..][1..] == b[2..];
    if CommaAt(b, 1) {
      // the escaped comma goes, so the next character is escaped instead
      assert Closes(b[2..]) && b[2..][1..] == b[3..];
      DropKeepsString(b[3..]);
      assert DropCommas(b[1..]) == DropCommas(b[2..]) == [b[2]] + DropCommas(b[3..]);
      assert d == ['\\'] + ([b[2]] + DropCommas(b[3..]));
      assert d[2..] == DropCommas(b[3..]);
    } else {
      DropKeepsString(b[2..]);
      assert d == ['\\'] + ([b[1]] + DropCommas(b[2..]));
      assert d[2..] == DropCommas(b[2..]);
    }
  }

  /** What the replacement makes of each token. */
  function Trimmed(tokens: seq<string>): seq<string> {
    if tokens == [] then []
    else if tokens[0] == "," && Closes(Flat(tokens[1..])) then Trimmed(tokens[1..])
    else [if IsLiteral(tokens[0]) then DropCommas(tokens[0]) else tokens[0]] + Trimmed(tokens[1..])
  }

  lemma DropToken(token: string, r: string)
    requires Whole(token)
    ensures token == "," && Closes(r) ==> DropCommas(token + r) == DropCommas(r)
    ensures !(token == "," && Closes(r)) ==>
      DropCommas(token + r) == (if IsLiteral(token) then DropCommas(token) else token) + DropCommas(r)
  {
    hide Closes;
    if IsLiteral(token) {
      LastIsQuote(token[1..]);
      DropSplit(token, r);
    } else {
      assert (token + r)[1..] == r && token == [token[0]];
    }
  }

  lemma {:induction false} DropFlat(tokens: seq<string>)
    requires forall k | 0 <= k < |tokens| :: Whole(tokens[k])
    ensures DropCommas(Flat(tokens)) == Flat(Trimmed(tokens))
  {
    hide Closes, Whole;
    if tokens != [] {
      DropFlat(tokens[1..]);
      DropToken(tokens[0], Flat(tokens[1..]));
    }
  }

  /** The first character afterwards is the first one before, white space or a bracket. */
  lemma DropFirst(t: string)
    requires DropCommas(t) != "" && t[0] != '/' && t[0] != '*'
    ensures DropCommas(t)[0] != '/' && DropCommas(t)[0] != '*'
  {
    if CommaAt(t, 0) { assert t[1] != ','; }
  }

  lemma {:induction false} TrimmedLexes(tokens: seq<string>)
    requires Lex(Flat(tokens)) == tokens && forall k | 0 <= k < |tokens| :: Whole(tokens[k])
    ensures Lex(Flat(Trimmed(tokens))) == Trimmed(tokens)
  {
    hide Closes, Whole, DropCommas, TokenLen;
    if tokens != [] {
      var x, r := tokens[0], tokens[1..];
      var t := Flat(tokens);
      assert x != "" && t == x + Flat(r) by { assert Whole(x);  }
      assert x == t[..TokenLen(t)] && Lex(t[TokenLen(t)..]) == r;
      assert t[TokenLen(t)..] == Flat(r);
      TrimmedLexes(r);
      DropFlat(r);
      if !(x == "," && Closes(Flat(r))) { TokenStays(x, r); }
    }
  }

  lemma TokenStays(x: string, r: seq<string>)
    requires Whole(x) && TokenLen(x + Flat(r)) == |x|
    requires DropCommas(Flat(r)) == Flat(Trimmed(r)) && Lex(Flat(Trimmed(r))) == Trimmed(r)
    ensures var y := if IsLiteral(x) then DropCommas(x) else x;
      Lex(Flat([y] + Trimmed(r))) == [y] + Trimmed(r)
  {
    hide Lex, Flat, Trimmed, TokenLen, DropCommas;
    if IsLiteral(x) {
      LiteralStays(x, Flat(Trimmed(r)));
      LexCons(DropCommas(x), Trimmed(r));
    } else {
      assert x == [x[0]];
      CodeStays(x[0], Flat(r));
      LexCons(x, Trimmed(r));
    }
  }

  lemma LiteralStays(x: string, s: string)
    requires IsLiteral(x) && Whole(x)
    ensures DropCommas(x) != "" && TokenLen(DropCommas(x) + s) == |DropCommas(x)|
  {
    hide Closes, Terminated, StringLen;
    DropKeepsString(x[1..]);
    var y := DropCommas(x);
    assert y == ['"'] + DropCommas(x[1..]);
    TerminatedAppend(y[1..], s);
    assert (y + s)[1..] == y[1..] + s;
  }

  lemma CodeStays(c: char, s: string)
    requires c != '"' && TokenLen([c] + s) == 1
    ensures TokenLen([c] + DropCommas(s)) == 1
  {
    hide DropCommas, TokenLen;
    NotComment([c] + s);
    var d := DropCommas(s);
    assert s == "" ==> d == "" by { DropIsIdentity(s); }
    if c == '/' && s != "" && d != "" {
      assert ([c] + s)[1] == s[0];
      DropFirst(s);
    }
    CodeLen([c] + d);
  }

  lemma CodeLen(t: string)
    requires t != "" && !IsLiteral(t) && !IsComment(t)
    ensures TokenLen(t) == 1
  {
  }

  lemma NotComment(t: string)
    requires t != "" && TokenLen(t) == 1
    ensures !IsComment(t)
  {
    if IsLine(t) { LinePrefix(t, LineLen(t)); }
  }

  function DropEach(literals: seq<string>): seq<string> {
    seq(|literals|, k requires 0 <= k < |literals| => DropCommas(literals[k]))
  }

  lemma {:induction false} TrimmedLiterals(tokens: seq<string>)
    ensures Literals(Trimmed(tokens)) == DropEach(Literals(tokens))
  {
    hide Closes, Flat, DropCommas;
    if tokens != [] {
      TrimmedLiterals(tokens[1..]);
      var x := tokens[0];
      if IsLiteral(x) {
        DropQuote(x);
        assert Trimmed(tokens)[1..] == Trimmed(tokens[1..]);
      }
    }
  }

  lemma DropQuote(x: string)
    requires IsLiteral(x)
    ensures IsLiteral(DropCommas(x))
  {
  }

  /** Every string literal of the text is closed. */
  predicate AllTerminated(tokens: seq<string>) {
    forall k | 0 <= k < |tokens| :: IsLiteral(tokens[k]) ==> Terminated(tokens[k][1..])
  }

  lemma {:induction false} StrippedIsWhole(t: string)
    requires AllTerminated(Lex(t))
    ensures forall k | 0 <= k < |Uncommented(Lex(t))| :: Whole(Uncommented(Lex(t))[k])
    ensures NoneDangling(Lex(t))
  {
    hide LineLen, BlockLen, Dangling;
    if t != "" {
      var n := TokenLen(t);
      var x := t[..n];
      assert Lex(t)[0] == x && Lex(t)[1..] == Lex(t[n..]);
      StrippedIsWhole(t[n..]);
      FirstIsWhole(t);
    }
  }

  lemma FirstIsWhole(t: string)
    requires t != "" && (IsLiteral(t) ==> Terminated(t[..TokenLen(t)][1..]))
    ensures forall k | 0 <= k < |Render(t[..TokenLen(t)])| :: Whole(Render(t[..TokenLen(t)])[k])
    ensures IsLiteral(t) ==> !Dangling(t[..TokenLen(t)][1..])
  {
    hide LineLen, BlockLen, Dangling, Terminated, StringLen;
    if IsLiteral(t) {
      LiteralIsWhole(t);
    } else if IsLine(t) {
      LinePrefix(t, TokenLen(t));
    }
  }

  lemma LiteralIsWhole(t: string)
    requires IsLiteral(t) && Terminated(t[..TokenLen(t)][1..])
    ensures Whole(t[..TokenLen(t)]) && !Dangling(t[..TokenLen(t)][1..])
  {
    hide LineLen, BlockLen, Dangling, Terminated, StringLen;
    var b, n := t[1..], StringLen(t[1..]);
    assert t[..1 + n][1..] == b[..n];
    assert b == b[..n] + b[n..];
    TerminatedAppend(b[..n], b[n..]);
  }

  /**
   The text that JSON.parse gets, for a text whose strings are closed: every literal is
   still there, in order, with the commas dropped that stand before white space and a
   closing bracket inside it.
   */
  lemma LiteralsAfterCommas(t: string)
    requires AllTerminated(Lex(t))
    ensures Literals(Lex(Parsed(t))) == DropEach(Literals(Lex(t)))
  {
    hide Lex, Uncommented, Flat, Trimmed, Whole, Literals, DropCommas, AllTerminated, NoneDangling;
    StrippedIsWhole(t);
    StripLexes(t);
    UncommentedLiterals(Lex(t));
    LexIsLossless(Strip(t));
    DropFlat(Uncommented(Lex(t)));
    TrimmedLexes(Uncommented(Lex(t)));
    TrimmedLiterals(Uncommented(Lex(t)));
  }

  /** So the strings survive exactly if none contains a comma before a closing bracket. */
  lemma StringsSurvive(t: string)
    requires AllTerminated(Lex(t))
    ensures Literals(Lex(Parsed(t))) == Literals(Lex(t))
       <==> forall k | 0 <= k < |Literals(Lex(t))| :: !TrailingComma(Literals(Lex(t))[k])
  {
    hide Lex, Literals, DropCommas, TrailingComma, AllTerminated, Parsed;
    LiteralsAfterCommas(t);
    var before, after := Literals(Lex(t)), Literals(Lex(Parsed(t)));
    forall k | 0 <= k < |before| ensures after[k] == before[k] <==> !TrailingComma(before[k]) {
      DropIsIdentity(before[k]);
    }
  }

  /** The string ",]" is read as "]". */
  lemma StringLosesComma()
    ensures Parsed("\",]\"") == "\"]\""
  {
    hide Lex, Uncommented, Flat;
    var t := "\",]\"";
    OneLiteral();
    assert Kept(t) by {
      assert t[1..] == ",]\"" && ",]\""[1..] == "]\"" && "]\""[1..] == "\"";
      assert !Dangling("]\"");
    }
    StripIsIdentity(t);
    assert Closes("]\"");
    assert t[1..] == ",]\"" && ",]\""[1..] == "]\"" && "]\""[1..] == "\"" && "\""[1..] == "";
    assert DropCommas("\"") == "\"" && DropCommas("]\"") == "]\"" && DropCommas(",]\"") == "]\"";
  }

  lemma OneLiteral()
    ensures Lex("\",]\"") == ["\",]\""]
  {
    var t := "\",]\"";
    assert t[1..] == ",]\"" && ",]\""[1..] == "]\"" && "]\""[1..] == "\"";
    assert StringLen("\"") == 1 && StringLen("]\"") == 2 && StringLen(",]\"") == 3;
    assert t[..4] == t && t[4..] == "";
  }
}
