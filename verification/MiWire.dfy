/** Rendered records sent line by line survive the stream parser and the reader thread, however they are cut. */
module MiWire {
  import opened Common
  import opened MiSyntax
  import opened MiStream
  import MiRoundTrip
  import Utf8

  /** Styles that keep a line one line of valid UTF-8: newlines escaped, non-ASCII bytes all raw or all octal. */
  ghost predicate LineSafe(style: char -> Style) {
    style('\n') != Raw
    && ((forall c: char :: 0x80 <= c as int ==> style(c) == Octal)
        || (forall c: char :: 0x80 <= c as int ==> style(c) != Octal))
  }

  predicate Clean(s: string) {
    Utf8.Valid(s) && forall i :: 0 <= i < |s| ==> s[i] != '\n'
  }

  /** Clean, and not ending in the carriage return that framing would strip. */
  predicate Closed(s: string) {
    Clean(s) && s != [] && s[|s| - 1] != '\r'
  }

  lemma {:induction false} CleanAppend(a: string, b: string)
    requires Clean(a) && Clean(b)
    ensures Clean(a + b)
    ensures Closed(b) ==> Closed(a + b)
  {
    Utf8.Append(a, b);
  }

  lemma {:induction false} CleanAscii(s: string)
    requires Utf8.Ascii(s) && forall i :: 0 <= i < |s| ==> s[i] != '\n'
    ensures Clean(s)
  {
    Utf8.AsciiIsValid(s);
  }

  lemma {:induction false} EncodeByteAscii(c: char, style: char -> Style)
    requires style('\n') != Raw && (c as int < 0x80 || (c as int < 256 && style(c) == Octal))
    ensures Clean(EncodeByte(c, style(c)))
  {
    CleanAscii(EncodeByte(c, style(c)));
  }

  lemma {:induction false} EncodeAscii(s: string, style: char -> Style)
    requires style('\n') != Raw
    requires forall i :: 0 <= i < |s| ==> s[i] as int < 0x80 || (s[i] as int < 256 && style(s[i]) == Octal)
    ensures Clean(Encode(s, style))
  {
    if s != [] {
      EncodeByteAscii(s[0], style);
      EncodeAscii(s[1..], style);
      CleanAppend(EncodeByte(s[0], style(s[0])), Encode(s[1..], style));
    }
  }

  lemma {:induction false} EncodeRaw(s: string, style: char -> Style)
    requires forall i :: 0 <= i < |s| ==> 0x80 <= s[i] as int && style(s[i]) != Octal
    ensures Encode(s, style) == s
  {
    if s != [] {
      EncodeRaw(s[1..], style);
      assert [s[0]] + s[1..] == s;
    }
  }

  lemma {:induction false} EncodeAppend(a: string, b: string, style: char -> Style)
    ensures Encode(a + b, style) == Encode(a, style) + Encode(b, style)
  {
    if a == [] {
      assert a + b == b && Encode(a, style) + Encode(b, style) == Encode(b, style);
    } else {
      EncodeAppend(a[1..], b, style);
      assert (a + b)[1..] == a[1..] + b;
      AppendAssociates(EncodeByte(a[0], style(a[0])), Encode(a[1..], style), Encode(b, style));
    }
  }

  /** One character of UTF-8, encoded. */
  lemma {:induction false} HeadClean(head: string, style: char -> Style)
    requires LineSafe(style) && head != [] && Utf8.HeadLength(head) == |head|
    ensures Clean(Encode(head, style))
  {
    if |head| == 1 || forall c: char :: 0x80 <= c as int ==> style(c) == Octal {
      EncodeAscii(head, style);
    } else {
      EncodeRaw(head, style);
      assert head[|head|..] == [];
    }
  }

  lemma {:induction false} EncodeClean(s: string, style: char -> Style)
    requires LineSafe(style) && Utf8.Valid(s)
    ensures Clean(Encode(s, style))
    decreases |s|
  {
    if s != [] {
      var n := Utf8.HeadLength(s);
      var head, tail := s[..n], s[n..];
      assert head + tail == s && Utf8.HeadLength(head) == n;
      EncodeClean(tail, style);
      HeadClean(head, style);
      EncodeAppend(head, tail, style);
      CleanAppend(Encode(head, style), Encode(tail, style));
    }
  }

  lemma {:induction false} Framing(open: char, body: string, close: char)
    requires Clean(body) && open as int < 0x80 && close as int < 0x80 && open != '\n' && close != '\n' && close != '\r'
    ensures Closed([open] + body + [close])
  {
    CleanAscii([open]);
    CleanAscii([close]);
    CleanAppend([open], body);
    CleanAppend([open] + body, [close]);
  }

  lemma {:induction false} StringClosed(s: string, style: char -> Style)
    requires LineSafe(style) && Utf8.Valid(s)
    ensures Closed(RenderString(s, style))
  {
    EncodeClean(s, style);
    Framing('"', Encode(s, style), '"');
  }

  lemma {:induction false} IdentifierClosed(s: string)
    requires Identifier(s)
    ensures Closed(s)
  {
    CleanAscii(s);
  }

  lemma {:induction false} ValueClosed(v: MiValue, style: char -> Style)
    requires LineSafe(style) && WfValue(v)
    ensures Closed(RenderValue(v, style))
    decreases v
  {
    match v {
      case Const(text) =>
        StringClosed(text, style);
      case Tuple(fields) =>
        ResultsClosed(fields, style);
        Framing('{', RenderResults(fields, style), '}');
      case List(items) =>
        ItemsClosed(items, style);
        Framing('[', RenderItems(items, style), ']');
    }
  }

  lemma {:induction false} ResultClosed(r: MiResult, style: char -> Style)
    requires LineSafe(style) && WfResult(r)
    ensures Closed(RenderResult(r, style))
    decreases r
  {
    IdentifierClosed(r.variable);
    CleanAscii("=");
    CleanAppend(r.variable, "=");
    ValueClosed(r.value, style);
    CleanAppend(r.variable + "=", RenderValue(r.value, style));
  }

  lemma {:induction false} Comma(first: string, more: string)
    requires Closed(first) && Closed(more)
    ensures Closed(first + ("," + more))
  {
    CleanAscii(",");
    CleanAppend(",", more);
    CleanAppend(first, "," + more);
  }

  lemma {:induction false} ResultsClosed(rs: seq<MiResult>, style: char -> Style)
    requires LineSafe(style) && WfResults(rs)
    ensures Clean(RenderResults(rs, style)) && (rs != [] ==> Closed(RenderResults(rs, style)))
    decreases rs
  {
    if rs != [] {
      var first := RenderResult(rs[0], style);
      ResultClosed(rs[0], style);
      if |rs| == 1 {
        assert RenderResults(rs, style) == first;
      } else {
        ResultsClosed(rs[1..], style);
        Comma(first, RenderResults(rs[1..], style));
      }
    }
  }

  lemma {:induction false} ItemClosed(item: MiListItem, style: char -> Style)
    requires LineSafe(style) && WfItem(item)
    ensures Closed(RenderItem(item, style))
    decreases item
  {
    match item {
      case Value(v) => ValueClosed(v, style);
      case Item(r) => ResultClosed(r, style);
    }
  }

  lemma {:induction false} ItemsClosed(items: seq<MiListItem>, style: char -> Style)
    requires LineSafe(style) && WfItems(items)
    ensures Clean(RenderItems(items, style)) && (items != [] ==> Closed(RenderItems(items, style)))
    decreases items
  {
    if items != [] {
      var first := RenderItem(items[0], style);
      ItemClosed(items[0], style);
      if |items| == 1 {
        assert RenderItems(items, style) == first;
      } else {
        ItemsClosed(items[1..], style);
        Comma(first, RenderItems(items[1..], style));
      }
    }
  }

  lemma {:induction false} ClassClosed(prefix: char, cls: string, results: seq<MiResult>, style: char -> Style)
    requires LineSafe(style) && IsClassPrefix(prefix) && Identifier(cls) && WfResults(results)
    ensures Closed([prefix] + (cls + RenderTail(results, style)))
  {
    IdentifierClosed(cls);
    CleanAscii([prefix]);
    if results == [] {
      assert cls + RenderTail(results, style) == cls;
    } else {
      ResultsClosed(results, style);
      Comma(cls, RenderResults(results, style));
    }
    CleanAppend([prefix], cls + RenderTail(results, style));
  }

  lemma {:induction false} StreamClosed(prefix: char, text: string, style: char -> Style)
    requires LineSafe(style) && IsStreamPrefix(prefix) && Utf8.Valid(text)
    ensures Closed([prefix] + RenderString(text, style))
  {
    StringClosed(text, style);
    CleanAscii([prefix]);
    CleanAppend([prefix], RenderString(text, style));
  }

  lemma {:induction false} ProgressClosed(value: MiValue, style: char -> Style)
    requires LineSafe(style) && WfValue(value)
    ensures Closed("+" + ("download" + ("," + RenderValue(value, style))))
  {
    ValueClosed(value, style);
    CleanAscii("+");
    CleanAscii("download");
    Comma("download", RenderValue(value, style));
    CleanAppend("+", "download" + ("," + RenderValue(value, style)));
  }

  lemma {:induction false} RecordClosed(r: MiRecord, style: char -> Style, gdb: bool)
    requires LineSafe(style) && WfRecord(r)
    ensures Closed(RenderRecord(r, style, gdb))
  {
    match r {
      case ResultRecord(token, cls, results) =>
        ClassClosed('^', cls, results, style);
        var digits := if token.Some? then Decimal(token.value) else [];
        CleanAscii(digits);
        CleanAppend(digits, "^" + (cls + RenderTail(results, style)));
      case Exec(cls, results) => ClassClosed('*', cls, results, style);
      case Status(cls, results) =>
        if gdb && IsProgress(r) {
          ProgressFields(r);
          ProgressClosed(results[0].value, style);
        } else {
          ClassClosed('+', cls, results, style);
        }
      case Notify(cls, results) => ClassClosed('=', cls, results, style);
      case Console(text) => StreamClosed('~', text, style);
      case Target(text) => StreamClosed('@', text, style);
      case Log(text) => StreamClosed('&', text, style);
      case Prompt => CleanAscii(if gdb then "(gdb) " else "(gdb)");
    }
  }

  /** How a line is written: as GDB or as the grammar has it, and with or without a carriage return at its end. */
  datatype Form = Form(gdb: bool, cr: bool)

  function Line(r: MiRecord, style: char -> Style, form: Form): string {
    RenderRecord(r, style, form.gdb) + if form.cr then "\r" else ""
  }

  lemma {:induction false} ReturnStripped(s: string, cr: bool)
    requires s != [] && s[|s| - 1] != '\r'
    ensures StripReturn(s + if cr then "\r" else "") == s
  {
    var line := s + if cr then "\r" else "";
    if cr {
      assert line[|line| - 1] == '\r' && line[..|line| - 1] == s;
    } else {
      assert line == s;
    }
  }

  /** The line of a record is judged to be that record. */
  lemma {:induction false} LineInverts(r: MiRecord, style: char -> Style, form: Form)
    requires LineSafe(style) && WfRecord(r)
    ensures JudgeLine(Line(r, style, form)) == Ok(Some(r))
    ensures forall i :: 0 <= i < |Line(r, style, form)| ==> Line(r, style, form)[i] != '\n'
  {
    hide RenderRecord;
    hide LineSafe;
    hide WfRecord;
    hide ParseRecord;
    hide StripReturn;
    var s := RenderRecord(r, style, form.gdb);
    RecordClosed(r, style, form.gdb);
    MiRoundTrip.RecordInverts(r, style, form.gdb);
    ReturnStripped(s, form.cr);
    hide Utf8.Valid;
  }

  /** Records as GDB sends them: one line each, in any form. */
  function Wire(records: seq<MiRecord>, style: char -> Style, forms: seq<Form>): string
    requires |forms| == |records|
  {
    if records == [] then [] else Line(records[0], style, forms[0]) + "\n" + Wire(records[1..], style, forms[1..])
  }

  predicate Sendable(r: MiRecord, style: char -> Style, form: Form) {
    WfRecord(r) && |Line(r, style, form)| <= MAX_RECORD
  }

  predicate AllSendable(records: seq<MiRecord>, style: char -> Style, forms: seq<Form>)
    requires |forms| == |records|
  {
    forall i :: 0 <= i < |records| ==> Sendable(records[i], style, forms[i])
  }

  lemma {:induction false} SendOne(r: MiRecord, style: char -> Style, form: Form, more: string)
    requires LineSafe(style) && Sendable(r, style, form)
    ensures Drain(JudgeLine, Line(r, style, form) + "\n" + more) == After([r], Drain(JudgeLine, more))
  {
    LineInverts(r, style, form);
    OneLine(JudgeLine, Line(r, style, form), more, r);
  }

  lemma {:induction false} WireDrains(records: seq<MiRecord>, style: char -> Style, forms: seq<Form>)
    requires LineSafe(style) && |forms| == |records| && AllSendable(records, style, forms)
    ensures Drain(JudgeLine, Wire(records, style, forms)) == Drained(records, [], None)
  {
    hide Drain;
    hide Sendable;
    hide LineSafe;
    hide Line;
    hide JudgeLine;
    if records == [] {
      DrainNothing(JudgeLine);
    } else {
      SendOne(records[0], style, forms[0], Wire(records[1..], style, forms[1..]));
      WireDrains(records[1..], style, forms[1..]);
      assert [records[0]] + records[1..] == records;
    }
  }

  lemma {:induction false} OneLine(judge: LineJudge, line: string, more: string, record: MiRecord)
    requires |line| <= MAX_RECORD && forall i :: 0 <= i < |line| ==> line[i] != '\n'
    requires judge(line) == Ok(Some(record))
    ensures Drain(judge, line + "\n" + more) == After([record], Drain(judge, more))
  {
    var s := line + "\n" + more;
    FirstIndexAt(s, '\n', |line|);
    assert s[..|line|] == line && s[|line| + 1..] == more;
    DrainStep(judge, s, Some(record));
  }

  /** Any fragmentation of rendered records, in any forms, delivers exactly those records and leaves nothing
      unfinished. */
  lemma {:induction false} WireRoundTrip(
    records: seq<MiRecord>, style: char -> Style, forms: seq<Form>, chunks: seq<string>)
    requires LineSafe(style) && |forms| == |records| && AllSendable(records, style, forms)
    requires Concat(chunks) == Wire(records, style, forms)
    ensures Feed(JudgeLine, [], chunks) == Drained(records, [], None)
  {
    WireDrains(records, style, forms);
    FeedIsDrain(JudgeLine, [], chunks);
    assert [] + Concat(chunks) == Concat(chunks);
  }

  // ---- The reader thread of gdb_process.rs ----

  function Sent(records: seq<MiRecord>): (items: seq<Result<MiRecord>>)
    ensures |items| == |records| && forall i :: 0 <= i < |items| ==> items[i] == Ok(records[i])
  {
    seq(|records|, i requires 0 <= i < |records| => Ok(records[i]))
  }

  lemma SentAppend(a: seq<MiRecord>, b: seq<MiRecord>)
    ensures Sent(a + b) == Sent(a) + Sent(b)
  {}

  function Ending(fed: Drained, readFails: bool): seq<Result<MiRecord>> {
    if fed.error.Some? then [Err(fed.error.value)]
    else if readFails then [Err(Failure(Debugger, GDB_READ_FAILED))]
    else if fed.rest != [] then [Err(MiError(MI_RECORD_TRUNCATED))]
    else []
  }

  /** Reads chunks until the output ends or a read fails; a parse or read failure also cancels the session,
      a truncated last record does not. */
  method ReadStdout(chunks: seq<string>, readFails: bool) returns (sent: seq<Result<MiRecord>>, cancelled: bool)
    ensures var fed := Feed(JudgeLine, [], chunks);
            && cancelled == (fed.error.Some? || readFails)
            && sent == Sent(fed.records) + Ending(fed, readFails)
  {
    var parser := new MiStreamParser();
    sent := [];
    var i := 0;
    ghost var done: seq<MiRecord> := [];
    AfterNothing(Feed(JudgeLine, [], chunks));
    while i < |chunks|
      invariant 0 <= i <= |chunks|
      invariant fresh(parser)
      invariant Feed(JudgeLine, [], chunks) == After(done, Feed(JudgeLine, parser.pending, chunks[i..]))
      invariant sent == Sent(done)
    {
      ghost var rest := chunks[i..];
      FeedStep(JudgeLine, parser.pending, rest);
      var pushed := parser.Push(chunks[i]);
      if pushed.Err? {
        AfterEmpty(done, Feed(JudgeLine, [], chunks));
        return sent + [Err(pushed.error)], true;
      }
      AfterAfter(done, pushed.value, Feed(JudgeLine, parser.pending, rest[1..]));
      SentAppend(done, pushed.value);
      done := done + pushed.value;
      sent := sent + Sent(pushed.value);
      i := i + 1;
      assert rest[1..] == chunks[i..];
    }
    AfterEmpty(done, Feed(JudgeLine, [], chunks));
    if readFails {
      return sent + [Err(Failure(Debugger, GDB_READ_FAILED))], true;
    }
    var end := parser.Finish();
    sent := sent + if end.Err? then [Err(end.error)] else [];
    cancelled := false;
  }

  lemma {:induction false} AfterEmpty(front: seq<MiRecord>, d: Drained)
    requires exists e: Drained :: e.records == [] && d == After(front, e)
    ensures d.records == front
  {
    assert front + [] == front;
  }

  lemma FeedStep(judge: LineJudge, pending: string, chunks: seq<string>)
    requires chunks != []
    ensures var d := Drain(judge, pending + chunks[0]);
            Feed(judge, pending, chunks) ==
              if d.error.Some? then Drained([], d.rest, d.error) else After(d.records, Feed(judge, d.rest, chunks[1..]))
  {}
}
