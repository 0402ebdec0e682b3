/** The recursive-descent parser of `mi.rs`, with its cursor, proved against the grammar of `MiSyntax`. */
module MiParser {
  import opened Common
  import opened MiSyntax
  import Utf8

  /** A method's outcome and the text it left unread are what the grammar gives for the text it started from. */
  predicate Agrees<T(==)>(r: Result<T>, spec: Parse<T>, unread: string) {
    match r
    case Ok(v) => spec == Parsed(v, unread)
    case Err(e) => spec == Bad(e)
  }

  class ValueParser {
    const text: string
    var cursor: nat

    constructor (text: string)
      ensures this.text == text && cursor == 0
    {
      this.text := text;
      this.cursor := 0;
    }

    predicate Valid()
      reads this
    {
      cursor <= |text|
    }

    function Unread(): string
      requires Valid()
      reads this
    {
      text[cursor..]
    }

    function Peek(): (c: Option<char>)
      requires Valid()
      reads this
      ensures c == if Unread() == [] then None else Some(Unread()[0])
    {
      if cursor < |text| then Some(text[cursor]) else None
    }

    method Advance()
      requires Valid() && cursor < |text|
      modifies this`cursor
      ensures Valid() && cursor == old(cursor) + 1
      ensures Unread() == old(Unread())[1..]
    {
      cursor := cursor + 1;
    }

    method Next() returns (c: Option<char>)
      requires Valid()
      modifies this`cursor
      ensures Valid() && c == old(Peek())
      ensures c.None? ==> cursor == old(cursor)
      ensures c.Some? ==> cursor == old(cursor) + 1 && Unread() == old(Unread())[1..]
    {
      c := Peek();
      if c.Some? {
        Advance();
      }
    }

    method Expect(c: char) returns (r: Result<()>)
      requires Valid()
      modifies this`cursor
      ensures Valid() && cursor >= old(cursor)
      ensures r.Ok? <==> old(Unread()) != [] && old(Unread())[0] == c
      ensures r.Ok? ==> cursor == old(cursor) + 1 && Unread() == old(Unread())[1..]
      ensures r.Err? ==> r.error == INVALID
    {
      var next := Next();
      r := if next == Some(c) then Ok(()) else Err(INVALID);
    }

    /** Moves over the longest run of identifier bytes. */
    method SkipIdentifier()
      requires Valid()
      modifies this`cursor
      ensures Valid() && cursor == old(cursor) + IdentifierLength(old(Unread()))
      ensures Unread() == old(Unread())[IdentifierLength(old(Unread()))..]
    {
      while cursor < |text| && IsIdentifier(text[cursor])
        invariant old(cursor) <= cursor <= |text|
        invariant IdentifierLength(old(Unread())) == cursor - old(cursor) + IdentifierLength(Unread())
        decreases |text| - cursor
      {
        cursor := cursor + 1;
        assert text[cursor - 1..][1..] == text[cursor..];
      }
      assert IdentifierLength(Unread()) == 0;
    }

    /** Reads the escape after a backslash and gives the byte it denotes. */
    method ParseEscape() returns (r: Result<char>)
      requires Valid()
      modifies this`cursor
      ensures Valid() && cursor >= old(cursor)
      ensures Agrees(r, MiSyntax.ParseEscape(old(Unread())), Unread())
    {
      var next := Next();
      if next.None? {
        return Err(INVALID);
      }
      var escaped := next.value;
      if SimpleEscape(escaped).Some? {
        return Ok(SimpleEscape(escaped).value);
      }
      if !IsOctal(escaped) {
        return Err(INVALID);
      }
      var value: nat := OctalDigit(escaped);
      var more := 2;
      while more > 0 && cursor < |text| && IsOctal(text[cursor])
        invariant 0 <= more <= 2 && old(cursor) <= cursor <= |text| && value <= 255
        invariant MiSyntax.ParseEscape(old(Unread())) == ParseOctal(value, more, Unread())
        decreases more
      {
        value := OctalStep(value, text[cursor]);
        Advance();
        more := more - 1;
      }
      return Ok(value as char);
    }

    method ParseCString() returns (r: Result<string>)
      requires Valid()
      modifies this`cursor
      ensures Valid() && cursor >= old(cursor)
      ensures Agrees(r, MiSyntax.ParseCString(old(Unread())), Unread())
    {
      var open := Expect('"');
      if open.Err? {
        return Err(open.error);
      }
      var bytes := ParseStringBody();
      if bytes.Ok? && !Utf8.Valid(bytes.value) {
        return Err(MiError(MI_UTF8_INVALID));
      }
      r := bytes;
    }

    method ParseStringBody() returns (r: Result<string>)
      requires Valid()
      modifies this`cursor
      ensures Valid() && cursor >= old(cursor)
      ensures Agrees(r, StringBody(old(Unread())), Unread())
    {
      var bytes := "";
      PrependNothing(StringBody(Unread()));
      while true
        invariant Valid() && cursor >= old(cursor)
        invariant StringBody(old(Unread())) == Prepend(bytes, StringBody(Unread()))
        decreases |text| - cursor
      {
        ghost var here := Unread();
        var next := Next();
        if next.None? {
          return Err(INVALID);
        }
        if next.value == '"' {
          assert bytes + [] == bytes;
          return Ok(bytes);
        }
        var byte := next.value;
        if next.value == '\\' {
          var escaped := ParseEscape();
          if escaped.Err? {
            return Err(escaped.error);
          }
          byte := escaped.value;
        }
        assert StringBody(here) == Prepend([byte], StringBody(Unread()));
        PrependPrepend(bytes, [byte], StringBody(Unread()));
        bytes := bytes + [byte];
      }
    }

    method ParseValue() returns (r: Result<MiValue>)
      requires Valid()
      modifies this`cursor
      ensures Valid() && cursor >= old(cursor)
      ensures Agrees(r, MiSyntax.ParseValue(old(Unread())), Unread())
      decreases |text| - cursor, 1
    {
      var next := Peek();
      if next == Some('"') {
        var s := ParseCString();
        r := match s case Ok(bytes) => Ok(Const(bytes)) case Err(e) => Err(e);
      } else if next == Some('{') {
        Advance();
        var fields := ParseResultSequence(Some('}'));
        if fields.Err? {
          return Err(fields.error);
        }
        var close := Expect('}');
        r := if close.Err? then Err(close.error) else Ok(Tuple(fields.value));
      } else if next == Some('[') {
        r := ParseList();
      } else {
        r := Err(INVALID);
      }
    }

    method ParseResult() returns (r: Result<MiResult>)
      requires Valid()
      modifies this`cursor
      ensures Valid() && cursor >= old(cursor)
      ensures Agrees(r, MiSyntax.ParseResult(old(Unread())), Unread())
      decreases |text| - cursor, 0
    {
      var start := cursor;
      SkipIdentifier();
      if cursor == start || Peek() != Some('=') {
        return Err(INVALID);
      }
      var variable := text[start..cursor];
      assert variable == old(Unread())[..cursor - start];
      Advance();
      var value := ParseValue();
      r := match value case Ok(v) => Ok(MiResult(variable, v)) case Err(e) => Err(e);
    }

    method ParseResultSequence(terminator: Option<char>) returns (r: Result<seq<MiResult>>)
      requires Valid()
      modifies this`cursor
      ensures Valid() && cursor >= old(cursor)
      ensures Agrees(r, ParseResults(old(Unread()), terminator), Unread())
      decreases |text| - cursor, 1
    {
      if terminator.Some? && Peek() == terminator {
        return Ok([]);
      }
      var results := [];
      PrependNothing(ParseResults1(Unread(), terminator));
      while true
        invariant Valid() && cursor >= old(cursor)
        invariant ParseResults(old(Unread()), terminator) == Prepend(results, ParseResults1(Unread(), terminator))
        decreases |text| - cursor
      {
        var one := ParseResult();
        if one.Err? {
          return Err(one.error);
        }
        ghost var before := results;
        results := results + [one.value];
        if Peek() == Some(',') {
          Advance();
          PrependPrepend(before, [one.value], ParseResults1(Unread(), terminator));
        } else if Peek() == terminator || Peek().None? {
          return Ok(results);
        } else {
          return Err(INVALID);
        }
      }
    }

    /** A list element: looks ahead over an identifier for the equals sign of a result. */
    method ParseItem() returns (r: Result<MiListItem>)
      requires Valid()
      modifies this`cursor
      ensures Valid() && cursor >= old(cursor)
      ensures Agrees(r, MiSyntax.ParseItem(old(Unread())), Unread())
      decreases |text| - cursor, 2
    {
      var saved := cursor;
      SkipIdentifier();
      var isResult := cursor > saved && Peek() == Some('=');
      cursor := saved;
      if isResult {
        var one := ParseResult();
        r := match one case Ok(v) => Ok(Item(v)) case Err(e) => Err(e);
      } else {
        var one := ParseValue();
        r := match one case Ok(v) => Ok(Value(v)) case Err(e) => Err(e);
      }
    }

    method ParseList() returns (r: Result<MiValue>)
      requires Valid()
      modifies this`cursor
      ensures Valid() && cursor >= old(cursor)
      ensures Agrees(r, MiSyntax.ParseList(old(Unread())), Unread())
      decreases |text| - cursor, 0
    {
      var open := Expect('[');
      if open.Err? {
        return Err(open.error);
      }
      ghost var start := Unread();
      if Peek() == Some(']') {
        Advance();
        return Ok(List([]));
      }
      var items := [];
      PrependNothing(ParseItems1(Unread()));
      while true
        invariant Valid() && cursor > old(cursor)
        invariant ParseItems(start) == Prepend(items, ParseItems1(Unread()))
        decreases |text| - cursor
      {
        var item := ParseItem();
        if item.Err? {
          return Err(item.error);
        }
        ghost var before := items;
        items := items + [item.value];
        if Peek() == Some(',') {
          Advance();
          PrependPrepend(before, [item.value], ParseItems1(Unread()));
        } else if Peek() == Some(']') {
          Advance();
          return Ok(List(items));
        } else {
          return Err(INVALID);
        }
      }
    }

    method RequireEnd() returns (r: Result<()>)
      requires Valid()
      ensures r == if Unread() == [] then Ok(()) else Err(INVALID)
    {
      r := if cursor == |text| then Ok(()) else Err(INVALID);
    }
  }

  method ParseRecord(text: string) returns (r: Result<MiRecord>)
    ensures r == MiSyntax.ParseRecord(text)
  {
    if text == "(gdb)" || text == "(gdb) " {
      return Ok(Prompt);
    }
    r := ParseNumbered(text);
  }

  /** Everything but a prompt: an optional token, a prefix, and what the prefix calls for. */
  method ParseNumbered(text: string) returns (r: Result<MiRecord>)
    ensures r == MiSyntax.ParseNumbered(text)
  {
    var cursor := 0;
    while cursor < |text| && IsDigit(text[cursor])
      invariant 0 <= cursor <= |text|
      invariant DigitsLength(text) == cursor + DigitsLength(text[cursor..])
      invariant forall i :: 0 <= i < cursor ==> IsDigit(text[i])
    {
      assert text[cursor..][1..] == text[cursor + 1..];
      cursor := cursor + 1;
    }
    assert cursor == DigitsLength(text);
    assert text[..cursor] == text[..DigitsLength(text)];
    var token := None;
    if cursor > 0 {
      if DecimalValue(text[..cursor]) > U64_MAX {
        return Err(MiError(MI_TOKEN_INVALID));
      }
      token := Some(DecimalValue(text[..cursor]));
    }
    if cursor == |text| {
      return Err(INVALID);
    }
    var prefix := text[cursor];
    cursor := cursor + 1;
    assert text[cursor - 1..][1..] == text[cursor..];
    if IsStreamPrefix(prefix) {
      if token.Some? {
        return Err(INVALID);
      }
      r := ParseStream(prefix, text[cursor..]);
    } else if IsClassPrefix(prefix) {
      r := ParseClassified(token, prefix, text[cursor..]);
    } else {
      r := Err(INVALID);
    }
  }

  method ParseStream(prefix: char, remainder: string) returns (r: Result<MiRecord>)
    requires IsStreamPrefix(prefix)
    ensures r == MiSyntax.ParseStream(prefix, remainder)
  {
    var parser := new ValueParser(remainder);
    var value := parser.ParseCString();
    if value.Err? {
      return Err(value.error);
    }
    var end := parser.RequireEnd();
    if end.Err? {
      return Err(end.error);
    }
    r := Ok(Stream(prefix, value.value));
  }

  method ParseClassified(token: Option<nat>, prefix: char, remainder: string) returns (r: Result<MiRecord>)
    requires IsClassPrefix(prefix)
    requires token.Some? ==> token.value <= U64_MAX
    ensures r == MiSyntax.ParseClassified(token, prefix, remainder)
  {
    var classEnd := FirstIndex(remainder, ',');
    var cls := remainder[..classEnd];
    if !Identifier(cls) {
      return Err(INVALID);
    }
    var results := [];
    if classEnd < |remainder| {
      var parser := new ValueParser(remainder[classEnd + 1..]);
      if prefix == '+' && cls == "download" && parser.Peek() == Some('{') {
        var value := parser.ParseValue();
        if value.Err? {
          return Err(value.error);
        }
        results := [MiResult("progress", value.value)];
      } else {
        var sequence := parser.ParseResultSequence(None);
        if sequence.Err? {
          return Err(sequence.error);
        }
        results := sequence.value;
      }
      var end := parser.RequireEnd();
      if end.Err? {
        return Err(end.error);
      }
    }
    r := Ok(Classified(token, prefix, cls, results));
  }
}
