/** `MiStreamParser` of `mi.rs`: line framing over byte chunks, and what fragmentation cannot change.
    The framing is stated for any way of judging a line; `JudgeLine` is the one of the parser. */
module MiStream {
  import opened Common
  import opened MiSyntax
  import MiParser
  import Utf8

  const MAX_RECORD := 1024 * 1024
  const TOO_LARGE := MiError(MI_RECORD_TOO_LARGE)

  /** What a line of at most `MAX_RECORD` bytes holds: nothing, a record, or an error. */
  type LineJudge = string -> Result<Option<MiRecord>>

  function StripReturn(line: string): string {
    if line != [] && line[|line| - 1] == '\r' then line[..|line| - 1] else line
  }

  function JudgeLine(content: string): Result<Option<MiRecord>> {
    var line := StripReturn(content);
    if line == [] then Ok(None)
    else if !Utf8.Valid(line) then Err(MiError(MI_UTF8_INVALID))
    else
      match ParseRecord(line)
      case Err(e) => Err(e)
      case Ok(record) => Ok(Some(record))
  }

  function RecordList(r: Option<MiRecord>): seq<MiRecord> {
    if r.Some? then [r.value] else []
  }

  /** What draining complete lines gives: the records before the first error, the bytes kept, the error. */
  datatype Drained = Drained(records: seq<MiRecord>, rest: string, error: Option<Failure>)

  function After(front: seq<MiRecord>, d: Drained): Drained {
    d.(records := front + d.records)
  }

  lemma {:induction false} AfterNothing(d: Drained)
    ensures After([], d) == d
  {
    assert [] + d.records == d.records;
  }

  lemma {:induction false} AfterAfter(a: seq<MiRecord>, b: seq<MiRecord>, d: Drained)
    ensures After(a, After(b, d)) == After(a + b, d)
  {
    assert a + (b + d.records) == (a + b) + d.records;
  }

  predicate Framed(pending: string) {
    |pending| <= MAX_RECORD && FirstIndex(pending, '\n') == |pending|
  }

  function Drain(judge: LineJudge, pending: string): (d: Drained)
    ensures d.error.None? ==> Framed(d.rest)
    decreases |pending|
  {
    var i := FirstIndex(pending, '\n');
    if i > MAX_RECORD then Drained([], [], Some(TOO_LARGE))
    else if i == |pending| then Drained([], pending, None)
    else
      match judge(pending[..i])
      case Err(e) => Drained([], pending[i + 1..], Some(e))
      case Ok(record) => After(RecordList(record), Drain(judge, pending[i + 1..]))
  }

  lemma DrainStep(judge: LineJudge, pending: string, record: Option<MiRecord>)
    requires var i := FirstIndex(pending, '\n'); i < |pending| && i <= MAX_RECORD && judge(pending[..i]) == Ok(record)
    ensures Drain(judge, pending) == After(RecordList(record), Drain(judge, pending[FirstIndex(pending, '\n') + 1..]))
  {}

  lemma DrainStops(judge: LineJudge, pending: string, error: Failure)
    requires var i := FirstIndex(pending, '\n'); i < |pending| && i <= MAX_RECORD && judge(pending[..i]) == Err(error)
    ensures Drain(judge, pending) == Drained([], pending[FirstIndex(pending, '\n') + 1..], Some(error))
  {}

  class MiStreamParser {
    var pending: string

    constructor ()
      ensures pending == []
    {
      pending := [];
    }

    /** On an error the records parsed earlier in the same call are lost with it. */
    method Push(bytes: string) returns (r: Result<seq<MiRecord>>)
      modifies this
      ensures var d := Drain(JudgeLine, old(pending) + bytes);
              r == (if d.error.None? then Ok(d.records) else Err(d.error.value)) && pending == d.rest
    {
      pending := pending + bytes;
      var records := [];
      ghost var all := pending;
      AfterNothing(Drain(JudgeLine, pending));
      while FirstIndex(pending, '\n') < |pending|
        invariant Drain(JudgeLine, all) == After(records, Drain(JudgeLine, pending))
        decreases |pending|
      {
        var index := FirstIndex(pending, '\n');
        if index > MAX_RECORD {
          pending := [];
          return Err(TOO_LARGE);
        }
        ghost var before := pending;
        var line := pending[..index];
        pending := pending[index + 1..];
        var judged := ParseLine(line);
        if judged.Err? {
          DrainStops(JudgeLine, before, judged.error);
          return Err(judged.error);
        }
        DrainStep(JudgeLine, before, judged.value);
        AfterAfter(records, RecordList(judged.value), Drain(JudgeLine, pending));
        records := records + RecordList(judged.value);
      }
      if |pending| > MAX_RECORD {
        pending := [];
        return Err(TOO_LARGE);
      }
      assert records + [] == records;
      r := Ok(records);
    }

    method Finish() returns (r: Result<()>)
      modifies this
      ensures r == if old(pending) == [] then Ok(()) else Err(MiError(MI_RECORD_TRUNCATED))
      ensures pending == []
    {
      if pending == [] {
        return Ok(());
      }
      pending := [];
      r := Err(MiError(MI_RECORD_TRUNCATED));
    }
  }

  method ParseLine(content: string) returns (r: Result<Option<MiRecord>>)
    ensures r == JudgeLine(content)
  {
    var line := content;
    if line != [] && line[|line| - 1] == '\r' {
      line := line[..|line| - 1];
    }
    if line == [] {
      return Ok(None);
    }
    if !Utf8.Valid(line) {
      return Err(MiError(MI_UTF8_INVALID));
    }
    var record := MiParser.ParseRecord(line);
    r := if record.Err? then Err(record.error) else Ok(Some(record.value));
  }

  // ---- Fragmentation ----

  lemma {:induction false} FirstIndexAppend(a: string, b: string, c: char)
    ensures FirstIndex(a, c) < |a| ==> FirstIndex(a + b, c) == FirstIndex(a, c)
    ensures FirstIndex(a, c) == |a| ==> FirstIndex(a + b, c) == |a| + FirstIndex(b, c)
  {
    var i := FirstIndex(a, c);
    FirstIndexAt(a + b, c, if i < |a| then i else |a| + FirstIndex(b, c));
  }

  /** Draining `a + b` is draining `a`, then draining what `a` kept together with `b`. */
  lemma {:induction false} DrainAppend(judge: LineJudge, a: string, b: string)
    ensures var first := Drain(judge, a);
            var whole := Drain(judge, a + b);
            if first.error.Some? then whole.error == first.error && whole.records == first.records
            else whole == After(first.records, Drain(judge, first.rest + b))
    decreases |a|
  {
    var i := FirstIndex(a, '\n');
    FirstIndexAppend(a, b, '\n');
    if i == |a| {
      AfterNothing(Drain(judge, a + b));
    } else if i <= MAX_RECORD {
      assert (a + b)[..i] == a[..i];
      assert (a + b)[i + 1..] == a[i + 1..] + b;
      DrainAppend(judge, a[i + 1..], b);
      var judged := judge(a[..i]);
      if judged.Ok? {
        var tail := Drain(judge, a[i + 1..]);
        AfterAfter(RecordList(judged.value), tail.records, Drain(judge, tail.rest + b));
      }
    }
  }

  /** Pushing chunks one after the other until one of them fails; a failing push delivers nothing. */
  function Feed(judge: LineJudge, pending: string, chunks: seq<string>): Drained
    decreases |chunks|
  {
    if chunks == [] then Drained([], pending, None)
    else
      var d := Drain(judge, pending + chunks[0]);
      if d.error.Some? then Drained([], d.rest, d.error) else After(d.records, Feed(judge, d.rest, chunks[1..]))
  }

  /** How many chunks are pushed without an error. */
  function Accepted(judge: LineJudge, pending: string, chunks: seq<string>): (n: nat)
    ensures n <= |chunks|
    ensures n == |chunks| <==> Feed(judge, pending, chunks).error.None?
    decreases |chunks|
  {
    if chunks == [] then 0
    else
      var d := Drain(judge, pending + chunks[0]);
      if d.error.Some? then 0 else 1 + Accepted(judge, d.rest, chunks[1..])
  }

  /** However the stream is cut, the verdict, the error and, on success, the records are those of the whole. */
  lemma {:induction false} FeedIsDrain(judge: LineJudge, pending: string, chunks: seq<string>)
    requires Framed(pending)
    ensures var whole := Drain(judge, pending + Concat(chunks));
            var fed := Feed(judge, pending, chunks);
            fed.error == whole.error && (fed.error.None? ==> fed == whole)
    decreases |chunks|
  {
    if chunks == [] {
      assert pending + Concat(chunks) == pending;
    } else {
      var d := Drain(judge, pending + chunks[0]);
      assert pending + Concat(chunks) == (pending + chunks[0]) + Concat(chunks[1..]);
      DrainAppend(judge, pending + chunks[0], Concat(chunks[1..]));
      if d.error.None? {
        FeedIsDrain(judge, d.rest, chunks[1..]);
      }
    }
  }

  /** Two ways of cutting one stream: same verdict and error; on success the same records and `finish` verdict. */
  lemma {:induction false} CuttingIsIrrelevant(cutA: seq<string>, cutB: seq<string>)
    requires Concat(cutA) == Concat(cutB)
    ensures var a, b := Feed(JudgeLine, [], cutA), Feed(JudgeLine, [], cutB);
            a.error == b.error && (a.error.None? ==> a.records == b.records && a.rest == b.rest)
  {
    FeedIsDrain(JudgeLine, [], cutA);
    FeedIsDrain(JudgeLine, [], cutB);
  }

  /** When a push fails, exactly the records of the chunks before it were delivered. */
  lemma {:induction false} FailingPushDrops(judge: LineJudge, pending: string, chunks: seq<string>)
    requires Framed(pending) && Feed(judge, pending, chunks).error.Some?
    ensures var n := Accepted(judge, pending, chunks);
            n < |chunks| &&
            var before := Drain(judge, pending + Concat(chunks[..n]));
            before.error.None?
            && Feed(judge, pending, chunks).records == before.records
            && Drain(judge, pending + Concat(chunks)).records ==
               before.records + Drain(judge, before.rest + chunks[n]).records
    decreases |chunks|
  {
    var n := Accepted(judge, pending, chunks);
    var head, tail := pending + chunks[0], chunks[1..];
    var d := Drain(judge, head);
    assert pending + Concat(chunks) == head + Concat(tail);
    DrainAppend(judge, head, Concat(tail));
    if n == 0 {
      assert chunks[..0] == [] && pending + Concat([]) == pending;
      AfterNothing(d);
    } else {
      FailingPushDrops(judge, d.rest, tail);
      ConcatPrefix(pending, chunks, n);
      DrainAppend(judge, head, Concat(tail[..n - 1]));
      var before := Drain(judge, d.rest + Concat(tail[..n - 1]));
      AfterAfter(d.records, before.records, Drain(judge, before.rest + chunks[n]));
    }
  }

  lemma {:induction false} ConcatPrefix(pending: string, chunks: seq<string>, n: nat)
    requires 0 < n <= |chunks|
    ensures pending + Concat(chunks[..n]) == (pending + chunks[0]) + Concat(chunks[1..][..n - 1])
  {
    assert chunks[..n][1..] == chunks[1..][..n - 1];
  }

  /** So the records parsed before the first error all arrive if and only if the failing chunk completed none. */
  lemma {:induction false} AllDeliveredIff(chunks: seq<string>)
    requires Feed(JudgeLine, [], chunks).error.Some?
    ensures var n := Accepted(JudgeLine, [], chunks);
            n < |chunks| &&
            (Feed(JudgeLine, [], chunks).records == Drain(JudgeLine, Concat(chunks)).records <==>
             Drain(JudgeLine, Drain(JudgeLine, Concat(chunks[..n])).rest + chunks[n]).records == [])
  {
    FailingPushDrops(JudgeLine, [], chunks);
    assert [] + Concat(chunks) == Concat(chunks);
    var n := Accepted(JudgeLine, [], chunks);
    assert [] + Concat(chunks[..n]) == Concat(chunks[..n]);
  }

  lemma {:induction false} FirstLine(judge: LineJudge, line: string, rest: string)
    requires FirstIndex(line, '\n') == |line| <= MAX_RECORD
    ensures Drain(judge, (line + "\n") + rest) ==
            match judge(line)
            case Err(e) => Drained([], rest, Some(e))
            case Ok(record) => After(RecordList(record), Drain(judge, rest))
  {
    var pending := (line + "\n") + rest;
    FirstIndexAt(pending, '\n', |line|);
    assert pending[..|line|] == line && pending[|line| + 1..] == rest;
  }

  lemma DrainNothing(judge: LineJudge)
    ensures Drain(judge, []) == Drained([], [], None)
  {}

  /** A good line and a bad one: in one chunk the record is lost, in two it arrives. */
  lemma {:induction false} CutDecides(judge: LineJudge, good: string, bad: string, record: MiRecord, error: Failure)
    requires FirstIndex(good, '\n') == |good| <= MAX_RECORD && judge(good) == Ok(Some(record))
    requires FirstIndex(bad, '\n') == |bad| <= MAX_RECORD && judge(bad) == Err(error)
    ensures Feed(judge, [], [(good + "\n") + (bad + "\n")]) == Drained([], [], Some(error))
    ensures Feed(judge, [], [good + "\n", bad + "\n"]) == Drained([record], [], Some(error))
  {
    hide Drain;
    hide FirstIndex;
    var a, b := good + "\n", bad + "\n";
    DrainNothing(judge);
    FirstLine(judge, good, b);
    FirstLine(judge, good, []);
    FirstLine(judge, bad, []);
    assert a + [] == a && b + [] == b && [] + a == a && [] + b == b && [] + (a + b) == a + b;
    assert [a, b][1..] == [b] && [b][1..] == [] && [a + b][0] == a + b;
    assert Feed(judge, [], [b]) == Drained([], [], Some(error));
    assert [record] + [] == [record];
  }

  lemma {:induction false} PromptJudged()
    ensures JudgeLine("(gdb)") == Ok(Some(Prompt)) && JudgeLine("?") == Err(INVALID)
    ensures FirstIndex("(gdb)", '\n') == |"(gdb)"| && FirstIndex("?", '\n') == |"?"|
  {
    Utf8.AsciiIsValid("(gdb)");
    Utf8.AsciiIsValid("?");
    assert DigitsLength("?") == 0 && "?"[0..] == "?";
    FirstIndexAt("(gdb)", '\n', 5);
    FirstIndexAt("?", '\n', 1);
  }

  /** The prompt before a line that is no record. */
  lemma {:induction false} PromptLost()
    ensures Feed(JudgeLine, [], [("(gdb)" + "\n") + ("?" + "\n")]).records == []
    ensures Feed(JudgeLine, [], ["(gdb)" + "\n", "?" + "\n"]).records == [Prompt]
  {
    PromptJudged();
    hide Feed;
    hide JudgeLine;
    CutDecides(JudgeLine, "(gdb)", "?", Prompt, INVALID);
  }

  // ---- Lines ----

  /** The contents of the complete lines of a stream. */
  function Lines(s: string): seq<string>
    decreases |s|
  {
    var i := FirstIndex(s, '\n');
    if i == |s| then [] else [s[..i]] + Lines(s[i + 1..])
  }

  /** What follows the last newline. */
  function Tail(s: string): string
    decreases |s|
  {
    var i := FirstIndex(s, '\n');
    if i == |s| then s else Tail(s[i + 1..])
  }

  /** The verdict on one complete line: too large exactly when its content exceeds 1 MiB. */
  function Verdict(judge: LineJudge, content: string): Result<Option<MiRecord>> {
    if |content| > 0x10_0000 then Err(Failure(Debugger, MI_RECORD_TOO_LARGE)) else judge(content)
  }

  /** How many lines come before the first bad one. */
  function GoodLines(judge: LineJudge, lines: seq<string>): (n: nat)
    ensures n <= |lines|
    ensures forall i :: 0 <= i < n ==> Verdict(judge, lines[i]).Ok?
    ensures n < |lines| ==> Verdict(judge, lines[n]).Err?
  {
    if lines == [] || Verdict(judge, lines[0]).Err? then 0 else 1 + GoodLines(judge, lines[1..])
  }

  function LineRecords(judge: LineJudge, lines: seq<string>): seq<MiRecord>
    requires forall i :: 0 <= i < |lines| ==> Verdict(judge, lines[i]).Ok?
  {
    if lines == [] then []
    else RecordList(Verdict(judge, lines[0]).value) + LineRecords(judge, lines[1..])
  }

  /** The stream is judged line by line: it gives the records of the lines before the first bad one, fails with
      that line's error, and without a bad line fails only when the unfinished last line is already too long. */
  lemma {:induction false} DrainByLines(judge: LineJudge, s: string)
    ensures var d := Drain(judge, s);
            var n := GoodLines(judge, Lines(s));
            d.records == LineRecords(judge, Lines(s)[..n]) &&
            (n < |Lines(s)| ==> d.error == Some(Verdict(judge, Lines(s)[n]).error)) &&
            (n == |Lines(s)| && |Tail(s)| > 0x10_0000 ==> d.error == Some(Failure(Debugger, MI_RECORD_TOO_LARGE))) &&
            (n == |Lines(s)| && |Tail(s)| <= 0x10_0000 ==> d.error == None && d.rest == Tail(s))
    decreases |s|
  {
    var i := FirstIndex(s, '\n');
    if i < |s| {
      var rest := s[i + 1..];
      LinesStep(judge, s);
      if Verdict(judge, s[..i]).Ok? {
        hide LineRecords;
        hide GoodLines;
        hide Lines;
        DrainByLines(judge, rest);
      }
    }
  }

  /** The first line, and what follows it. */
  lemma {:induction false} LinesStep(judge: LineJudge, s: string)
    requires FirstIndex(s, '\n') < |s|
    ensures var i := FirstIndex(s, '\n');
            var (lines, later) := (Lines(s), Lines(s[i + 1..]));
            var (n, m) := (GoodLines(judge, lines), GoodLines(judge, later));
            && lines == [s[..i]] + later && Tail(s) == Tail(s[i + 1..])
            && (Verdict(judge, s[..i]).Err? ==> n == 0 && LineRecords(judge, lines[..n]) == [])
            && (Verdict(judge, s[..i]).Ok? ==>
                  && n == m + 1 && (m < |later| ==> lines[n] == later[m])
                  && LineRecords(judge, lines[..n]) ==
                     RecordList(Verdict(judge, s[..i]).value) + LineRecords(judge, later[..m]))
  {
    var i := FirstIndex(s, '\n');
    var lines, later := Lines(s), Lines(s[i + 1..]);
    assert lines[0] == s[..i] && lines[1..] == later;
    if Verdict(judge, s[..i]).Ok? {
      var n := GoodLines(judge, lines);
      assert lines[..n][0] == lines[0] && lines[..n][1..] == later[..n - 1];
    }
  }

  /** What one line is, without its carriage return: nothing when it is empty, otherwise UTF-8 and a record, or
      refused. */
  lemma {:induction false} LineJudged(text: string, cr: bool)
    requires cr || text == [] || text[|text| - 1] != '\r'
    ensures JudgeLine(if cr then text + "\r" else text) ==
            if text == [] then Ok(None)
            else if !Utf8.IsEncoding(text) then Err(Failure(Debugger, MI_UTF8_INVALID))
            else if ParseRecord(text).Ok? then Ok(Some(ParseRecord(text).value))
            else Err(ParseRecord(text).error)
  {
    Utf8.ValidIff(text);
    hide Utf8.Valid;
    hide Utf8.IsEncoding;
    hide ParseRecord;
    if cr {
      assert (text + "\r")[..|text|] == text;
    }
  }
}
