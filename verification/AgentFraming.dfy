/** `read_bounded_line` of `agent.rs`: request lines of at most a mebibyte out of a buffered reader, whatever its buffer
    boundaries are. */
module AgentFraming {
  import opened Common
  import Utf8

  const MAX_REQUEST_BYTES: nat := 0x10_0000

  datatype InputLine = Line(text: string) | TooLarge | Eof

  /** How the input ends: properly, or with a read error. */
  datatype End = Closed | Broken

  // ---- What a stream of bytes means ----

  function StripReturn(content: string): string {
    if content != [] && content[|content| - 1] == '\r' then content[..|content| - 1] else content
  }

  /** A complete line: too large, or its text; text that is not UTF-8 becomes one that no JSON parser accepts. */
  function Judge(content: string): InputLine {
    if |content| > MAX_REQUEST_BYTES then TooLarge
    else if Utf8.Valid(StripReturn(content)) then Line(StripReturn(content))
    else Line(['{'])
  }

  /** The next line of the stream `s`, and what is left of it. */
  function NextLine(s: string, end: End): (r: (InputLine, string)) {
    var i := FirstIndex(s, '\n');
    if i < |s| then (Judge(s[..i]), s[i + 1..])
    else if s == [] || end.Broken? then (Eof, [])
    else (Judge(s), [])
  }

  /** Everything the reading thread sends: the lines of the stream up to and including the end. */
  function Lines(s: string, end: End): (r: seq<InputLine>)
    ensures r != []
    decreases |s|
  {
    var next := NextLine(s, end);
    if next.0.Eof? then [Eof] else [next.0] + Lines(next.1, end)
  }

  // ---- The code ----

  /** A buffered reader: `fill_buf` shows the rest of the first chunk; chunks are never empty. */
  class BufferedReader {
    var chunks: seq<string>
    const end: End

    constructor (chunks: seq<string>, end: End)
      requires forall i :: 0 <= i < |chunks| ==> chunks[i] != []
      ensures this.chunks == chunks && this.end == end && Valid()
    {
      this.chunks, this.end := chunks, end;
    }

    ghost predicate Valid()
      reads this
    {
      forall i :: 0 <= i < |chunks| ==> chunks[i] != []
    }

    ghost function Rest(): string
      reads this
    {
      Concat(chunks)
    }

    method FillBuf() returns (available: Option<string>)
      requires Valid()
      ensures available.None? <==> chunks == [] && end.Broken?
      ensures available.Some? ==> available.value == if chunks == [] then [] else chunks[0]
    {
      if chunks == [] {
        return if end.Broken? then None else Some([]);
      }
      return Some(chunks[0]);
    }

    method Consume(count: nat)
      requires Valid() && chunks != [] && 0 < count <= |chunks[0]|
      modifies this
      ensures Valid() && Rest() == old(Rest())[count..] && |Rest()| < |old(Rest())|
      ensures count == |old(chunks[0])| ==> chunks == old(chunks)[1..]
    {
      assert Concat(chunks) == chunks[0] + Concat(chunks[1..]);
      if count == |chunks[0]| {
        chunks := chunks[1..];
      } else {
        chunks := [chunks[0][count..]] + chunks[1..];
        assert chunks[1..] == old(chunks)[1..];
      }
    }
  }

  /** One call. `peak` is the most the function ever held of a line. */
  method ReadBoundedLine(reader: BufferedReader) returns (line: InputLine, ghost peak: nat)
    requires reader.Valid()
    modifies reader
    ensures reader.Valid()
    ensures (line, reader.Rest()) == NextLine(old(reader.Rest()), reader.end)
    ensures peak <= MAX_REQUEST_BYTES
  {
    var bytes := [];
    var tooLarge := false;
    ghost var whole := reader.Rest();
    ghost var content := [];
    peak := 0;
    while true
      invariant reader.Valid() && whole == content + reader.Rest() && '\n' !in content
      invariant tooLarge <==> |content| > MAX_REQUEST_BYTES
      invariant bytes == if tooLarge then [] else content
      invariant peak <= MAX_REQUEST_BYTES && |bytes| <= MAX_REQUEST_BYTES
      decreases |reader.Rest()|
    {
      var available := reader.FillBuf();
      if available.None? {
        AtEnd(whole, content, reader.end);
        return Eof, peak;
      }
      if available.value == [] {
        AtEnd(whole, content, reader.end);
        if bytes == [] && !tooLarge {
          return Eof, peak;
        }
        break;
      }
      var newline := FirstIndex(available.value, '\n');
      var consumed := if newline < |available.value| then newline + 1 else |available.value|;
      ghost var rest := reader.Rest();
      FirstChunk(reader.chunks, newline, consumed);
      if !tooLarge {
        if |bytes| + newline > MAX_REQUEST_BYTES {
          tooLarge := true;
          bytes := [];
        } else {
          bytes := bytes + available.value[..newline];
        }
      }
      peak := if peak < |bytes| then |bytes| else peak;
      reader.Consume(consumed);
      Advance(whole, content, rest, newline, consumed);
      content := content + rest[..newline];
      if newline < |available.value| {
        break;
      }
    }
    line := if tooLarge then TooLarge
            else if Utf8.Valid(StripReturn(bytes)) then Line(StripReturn(bytes))
            else Line(['{']);
  }

  /** At the end of the input what has been read is all there was. */
  lemma {:induction false} AtEnd(whole: string, content: string, end: End)
    requires whole == content + [] && '\n' !in content
    ensures NextLine(whole, end) == if content == [] || end.Broken? then (Eof, []) else (Judge(content), [])
  {
    assert whole == content;
    FirstIndexAt(whole, '\n', |whole|);
  }

  /** The first chunk is a prefix of what is left. */
  lemma FirstChunk(chunks: seq<string>, newline: nat, consumed: nat)
    requires chunks != [] && chunks[0] != [] && newline == FirstIndex(chunks[0], '\n')
    requires consumed == if newline < |chunks[0]| then newline + 1 else |chunks[0]|
    ensures var rest := Concat(chunks);
            && 0 < consumed <= |chunks[0]| <= |rest| && rest[..newline] == chunks[0][..newline]
            && '\n' !in rest[..newline]
            && (newline < |chunks[0]| ==> rest[newline] == '\n')
  {}

  /** Taking the content before the newline, or the whole chunk, off what is left. */
  lemma {:induction false} Advance(whole: string, content: string, rest: string, newline: nat, consumed: nat)
    requires whole == content + rest && newline <= consumed <= |rest| && '\n' !in content && '\n' !in rest[..newline]
    requires consumed == newline || (consumed == newline + 1 && rest[newline] == '\n')
    ensures consumed == newline ==> whole == (content + rest[..newline]) + rest[consumed..]
    ensures consumed == newline + 1 ==>
      NextLine(whole, Closed) == (Judge(content + rest[..newline]), rest[consumed..])
      && NextLine(whole, Broken) == NextLine(whole, Closed)
  {
    if consumed == newline + 1 {
      var line := content + rest[..newline];
      assert whole[..|line|] == line && whole[|line|] == '\n' && whole[|line| + 1..] == rest[consumed..];
      FirstIndexAt(whole, '\n', |line|);
    }
  }

  /** The loop of the reading thread: it stops after the first `Eof`. */
  method ReadLines(reader: BufferedReader) returns (lines: seq<InputLine>)
    requires reader.Valid()
    modifies reader
    ensures lines == Lines(old(reader.Rest()), reader.end)
  {
    lines := [];
    ghost var whole := reader.Rest();
    while true
      invariant reader.Valid() && lines + Lines(reader.Rest(), reader.end) == Lines(whole, reader.end)
      decreases |reader.Rest()|
    {
      ghost var before := reader.Rest();
      var line, _ := ReadBoundedLine(reader);
      AppendAssociates(lines, [line], Lines(reader.Rest(), reader.end));
      lines := lines + [line];
      if line.Eof? {
        return;
      }
    }
  }

  // ---- Splitting at newlines ----

  predicate NoNewline(s: string) {
    '\n' !in s
  }

  /** Lines, each with its newline. */
  function Joined(lines: seq<string>): string {
    if lines == [] then [] else (lines[0] + ['\n']) + Joined(lines[1..])
  }

  /** The complete lines of a stream, and what follows the last newline. */
  function Split(s: string): (seq<string>, string)
    decreases |s|
  {
    var i := FirstIndex(s, '\n');
    if i == |s| then ([], s)
    else
      var rest := Split(s[i + 1..]);
      ([s[..i]] + rest.0, rest.1)
  }

  predicate NoNewlines(lines: seq<string>) {
    forall i :: 0 <= i < |lines| ==> NoNewline(lines[i])
  }

  lemma {:induction false} SplitJoins(s: string)
    ensures s == Joined(Split(s).0) + Split(s).1 && NoNewline(Split(s).1) && NoNewlines(Split(s).0)
    decreases |s|
  {
    var i := FirstIndex(s, '\n');
    if i < |s| {
      SplitJoins(s[i + 1..]);
      CutsJoin(s, i, Split(s[i + 1..]).0, Split(s[i + 1..]).1);
    }
  }

  lemma {:induction false} CutsJoin(s: string, i: nat, lines: seq<string>, tail: string)
    requires i < |s| && s[i] == '\n' && s[i + 1..] == Joined(lines) + tail
    ensures s == Joined([s[..i]] + lines) + tail
  {
    JoinedCons(s[..i], lines);
    hide Joined;
    assert s == (s[..i] + ['\n']) + s[i + 1..];
    AppendAssociates(s[..i] + ['\n'], Joined(lines), tail);
  }

  lemma {:induction false} JoinedCons(line: string, lines: seq<string>)
    ensures Joined([line] + lines) == (line + ['\n']) + Joined(lines)
  {
    assert ([line] + lines)[1..] == lines;
  }

  function Judged(lines: seq<string>): (r: seq<InputLine>)
    ensures |r| == |lines| && forall i :: 0 <= i < |lines| ==> r[i] == Judge(lines[i])
  {
    seq(|lines|, i requires 0 <= i < |lines| => Judge(lines[i]))
  }

  /** A complete line is judged and reading starts afresh right after it, even if it was too large. */
  lemma {:induction false} LinesCons(line: string, rest: string, end: End)
    requires NoNewline(line)
    ensures Lines((line + ['\n']) + rest, end) == [Judge(line)] + Lines(rest, end)
  {
    var s := (line + ['\n']) + rest;
    FirstIndexAt(s, '\n', |line|);
    assert s[..|line|] == line && s[|line| + 1..] == rest;
  }

  function AtTail(tail: string, end: End): seq<InputLine> {
    if tail == [] || end.Broken? then [Eof] else [Judge(tail), Eof]
  }

  lemma {:induction false} TailLines(tail: string, end: End)
    requires NoNewline(tail)
    ensures Lines(tail, end) == AtTail(tail, end)
  {
    FirstIndexAt(tail, '\n', |tail|);
    if tail != [] && end.Closed? {
      assert Lines(tail, end) == [Judge(tail)] + Lines([], end);
    }
  }

  /** What is read is the newline split of the stream: every complete line judged in its place, then a non-empty
      unterminated tail unless the input broke off, then the end. */
  lemma {:induction false} LinesAreSplit(lines: seq<string>, tail: string, end: End)
    requires NoNewline(tail) && NoNewlines(lines)
    ensures Lines(Joined(lines) + tail, end) == Judged(lines) + AtTail(tail, end)
    decreases |lines|
  {
    hide Lines;
    hide Judge;
    if lines == [] {
      assert Joined(lines) + tail == tail;
      TailLines(tail, end);
    } else {
      LinesAreSplit(lines[1..], tail, end);
      AppendAssociates(lines[0] + ['\n'], Joined(lines[1..]), tail);
      LinesCons(lines[0], Joined(lines[1..]) + tail, end);
      assert Judged(lines) == [Judge(lines[0])] + Judged(lines[1..]);
      AppendAssociates([Judge(lines[0])], Judged(lines[1..]), AtTail(tail, end));
    }
  }

  /** For any stream. */
  lemma {:induction false} FramingIsSplitting(s: string, end: End)
    ensures Lines(s, end) == Judged(Split(s).0) + AtTail(Split(s).1, end)
  {
    SplitJoins(s);
    LinesAreSplit(Split(s).0, Split(s).1, end);
  }

  /** Requests sent one to a line, with either line ending, arrive as they are. */
  lemma {:induction false} RequestsArrive(requests: seq<string>, crlf: seq<bool>, end: End)
    requires |crlf| == |requests|
    requires forall i :: 0 <= i < |requests| ==>
      && NoNewline(requests[i]) && Utf8.Valid(requests[i]) && |requests[i]| < MAX_REQUEST_BYTES
      && (requests[i] == [] || requests[i][|requests[i]| - 1] != '\r')
    ensures Lines(Joined(Ended(requests, crlf)), end) ==
            seq(|requests|, i requires 0 <= i < |requests| => Line(requests[i])) + [Eof]
  {
    var lines := Ended(requests, crlf);
    assert Joined(lines) + [] == Joined(lines);
    LinesAreSplit(lines, [], end);
    assert Judged(lines) == seq(|requests|, i requires 0 <= i < |requests| => Line(requests[i]));
  }

  /** What one line of the input becomes, without its carriage return and whatever follows it: over a mebibyte it is too
      large, and it is kept exactly when it is UTF-8. */
  lemma {:induction false} OneLineRead(text: string, cr: bool, rest: string, end: End)
    requires NoNewline(text) && (cr || text == [] || text[|text| - 1] != '\r')
    ensures var content := if cr then text + "\r" else text;
            Lines((content + "\n") + rest, end) ==
            [if |content| > 0x10_0000 then TooLarge else if Utf8.IsEncoding(text) then Line(text) else Line("{")]
            + Lines(rest, end)
  {
    var content := if cr then text + "\r" else text;
    Utf8.ValidIff(text);
    hide Utf8.Valid;
    hide Utf8.IsEncoding;
    LinesCons(content, rest, end);
    hide Lines;
    if cr {
      assert content[..|content| - 1] == text;
    }
    assert "\n" == ['\n'];
  }

  /** A last line without its newline counts when the input is closed, not when it broke off. */
  lemma {:induction false} LastLineRead(text: string, end: End)
    requires NoNewline(text) && (text == [] || text[|text| - 1] != '\r')
    ensures Lines(text, end) ==
            if text == [] || end.Broken? then [Eof]
            else [if |text| > 0x10_0000 then TooLarge else if Utf8.IsEncoding(text) then Line(text) else Line("{"), Eof]
  {
    Utf8.ValidIff(text);
    hide Utf8.Valid;
    hide Utf8.IsEncoding;
    TailLines(text, end);
  }

  function Ended(requests: seq<string>, crlf: seq<bool>): (r: seq<string>)
    requires |crlf| == |requests|
    ensures |r| == |requests|
  {
    seq(|requests|, i requires 0 <= i < |requests| => if crlf[i] then requests[i] + ['\r'] else requests[i])
  }

  /** A request that reaches the protocol is within the limit, so its own size check never fires. */
  lemma {:induction false} FramedLinesFit(s: string, end: End, i: nat)
    requires i < |Lines(s, end)| && Lines(s, end)[i].Line?
    ensures |Lines(s, end)[i].text| <= MAX_REQUEST_BYTES
  {
    FramingIsSplitting(s, end);
    JudgedFits(Split(s).1);
    forall content ensures Judge(content).Line? ==> |Judge(content).text| <= MAX_REQUEST_BYTES {
      JudgedFits(content);
    }
  }

  lemma JudgedFits(content: string)
    ensures Judge(content).Line? ==> |Judge(content).text| <= MAX_REQUEST_BYTES
  {}
}
