/** Parsing inverts rendering, whatever escape style the renderer uses for each byte. */
module MiRoundTrip {
  import opened Common
  import opened MiSyntax
  import Utf8

  // ---- Strings ----

  /** The exact value of octal digits read after `value`. */
  function OctalValue(value: nat, digits: string): nat
    requires forall i :: 0 <= i < |digits| ==> IsOctal(digits[i])
    decreases |digits|
  {
    if digits == [] then value
    else OctalValue(8 * value + OctalDigit(digits[0]), digits[1..])
  }

  lemma {:induction false} OctalDigitsParse(value: nat, digits: string, rest: string, more: nat)
    requires |digits| <= more && forall i :: 0 <= i < |digits| ==> IsOctal(digits[i])
    requires |digits| < more ==> rest == [] || !IsOctal(rest[0])
    ensures ParseOctal(Min(255, value), more, digits + rest) ==
            Parsed(Min(255, OctalValue(value, digits)) as char, rest)
    decreases more
  {
    if digits == [] {
      assert digits + rest == rest;
    } else {
      assert (digits + rest)[1..] == digits[1..] + rest;
      OctalDigitsParse(8 * value + OctalDigit(digits[0]), digits[1..], rest, more - 1);
    }
  }

  lemma OctalIsNotSimple(c: char)
    requires IsOctal(c)
    ensures SimpleEscape(c).None?
  {}

  /** One to three octal digits, read as far as they go, denote their value capped at 255. */
  lemma {:induction false} OctalEscapeSaturates(digits: string, rest: string)
    requires 1 <= |digits| <= 3 && forall i :: 0 <= i < |digits| ==> IsOctal(digits[i])
    requires |digits| < 3 ==> rest == [] || !IsOctal(rest[0])
    ensures ParseEscape(digits + rest) == Parsed(Min(255, OctalValue(0, digits)) as char, rest)
  {
    var first := OctalDigit(digits[0]);
    assert (digits + rest)[1..] == digits[1..] + rest;
    OctalDigitsParse(first, digits[1..], rest, 2);
    assert ParseEscape(digits + rest) == ParseOctal(first, 2, digits[1..] + rest) by {
      OctalIsNotSimple(digits[0]);
    }
    assert Min(255, first) == first && OctalValue(0, digits) == OctalValue(first, digits[1..]);
  }

  lemma {:induction false} OctalRoundTrip(c: char, digits: string)
    requires c as int < 256
    requires digits == [OctalChar(c as int / 64), OctalChar(c as int / 8 % 8), OctalChar(c as int % 8)]
    ensures OctalValue(0, digits) == c as int
  {
    var n := c as int;
    assert digits[1..] == [digits[1], digits[2]] && digits[1..][1..] == [digits[2]];
    assert OctalValue(n / 8, [digits[2]]) == n;
    assert OctalValue(n / 64, digits[1..]) == OctalValue(8 * (n / 64) + n / 8 % 8, [digits[2]]);
  }

  lemma {:induction false} EncodeByteParses(c: char, style: Style, rest: string)
    requires c as int < 256 || style != Octal
    ensures var e := EncodeByte(c, style);
            e != [] && e[0] != '"' &&
            if e[0] == '\\' then ParseEscape((e + rest)[1..]) == Parsed(c, rest)
            else e == [c]
  {
    var e := EncodeByte(c, style);
    if style == Octal && c as int < 256 {
      assert (e + rest)[1..] == e[1..] + rest;
      OctalEscapeSaturates(e[1..], rest);
      OctalRoundTrip(c, e[1..]);
    } else if |e| == 2 {
      assert (e + rest)[1..] == [e[1]] + rest;
      assert SimpleEscape(e[1]) == Some(c);
    }
  }

  lemma {:induction false} StringBodyInverts(s: string, style: char -> Style, rest: string)
    requires forall i :: 0 <= i < |s| ==> s[i] as int < 256
    ensures StringBody(Encode(s, style) + "\"" + rest) == Parsed(s, rest)
  {
    var tail := "\"" + rest;
    assert Encode(s, style) + "\"" + rest == Encode(s, style) + tail;
    if s == [] {
      assert tail[1..] == rest;
    } else {
      var e := EncodeByte(s[0], style(s[0]));
      var more := Encode(s[1..], style) + "\"" + rest;
      assert Encode(s, style) + tail == e + more;
      EncodeByteParses(s[0], style(s[0]), more);
      StringBodyInverts(s[1..], style, rest);
      assert [s[0]] + s[1..] == s;
      assert (e + more)[0] == e[0];
      if e[0] != '\\' {
        assert (e + more)[1..] == more;
      }
    }
  }

  lemma {:induction false} ValidBytes(s: string)
    requires Utf8.Valid(s)
    ensures forall i :: 0 <= i < |s| ==> s[i] as int < 256
  {
    if s != [] {
      var n := Utf8.HeadLength(s);
      ValidBytes(s[n..]);
      forall i | 0 <= i < |s|
        ensures s[i] as int < 256
      {
        if i >= n {
          assert s[i] == s[n..][i - n];
        }
      }
    }
  }

  lemma {:induction false} CStringParses(body: string, s: string, rest: string)
    requires StringBody(body + "\"" + rest) == Parsed(s, rest) && Utf8.Valid(s)
    ensures ParseCString("\"" + body + "\"" + rest) == Parsed(s, rest)
  {
    assert ("\"" + body + "\"" + rest)[1..] == body + "\"" + rest;
  }

  lemma {:induction false} CStringInverts(s: string, style: char -> Style, rest: string)
    requires Utf8.Valid(s)
    ensures ParseCString(RenderString(s, style) + rest) == Parsed(s, rest)
  {
    ValidBytes(s);
    StringBodyInverts(s, style, rest);
    CStringParses(Encode(s, style), s, rest);
  }

  /** A quoted command argument reads back as itself. */
  lemma {:induction false} QuoteInverts(s: string)
    requires Utf8.Valid(s)
    ensures Complete(ParseCString(Quote(s))) == Ok(s)
  {
    CStringInverts(s, QuoteStyle, []);
    assert Quote(s) + [] == Quote(s);
  }

  // ---- Values ----

  lemma {:induction false} IdentifierRun(name: string, rest: string)
    requires Identifier(name) && (rest == [] || !IsIdentifier(rest[0]))
    ensures IdentifierLength(name + rest) == |name|
  {
    var s := name + rest;
    var n := IdentifierLength(s);
    assert |name| < |s| ==> s[|name|] == rest[0];
    assert forall i :: 0 <= i < |name| ==> s[i] == name[i];
  }

  lemma {:induction false} ValueInverts(v: MiValue, style: char -> Style, rest: string)
    requires WfValue(v)
    ensures RenderValue(v, style) != [] && RenderValue(v, style)[0] != ']' && !IsIdentifier(RenderValue(v, style)[0])
    ensures ParseValue(RenderValue(v, style) + rest) == Parsed(v, rest)
    decreases v
  {
    var s := RenderValue(v, style) + rest;
    match v {
      case Const(text) =>
        CStringInverts(text, style, rest);
      case Tuple(fields) =>
        var close := "}" + rest;
        assert s[1..] == RenderResults(fields, style) + close;
        if fields != [] {
          ResultsInvert(fields, style, Some('}'), close);
          ResultsStart(fields, style);
          assert (RenderResults(fields, style) + close)[0] == RenderResults(fields, style)[0];
        }
        assert ParseResults(s[1..], Some('}')) == Parsed(fields, close);
        assert close[1..] == rest;
      case List(items) =>
        var close := "]" + rest;
        assert s[1..] == RenderItems(items, style) + close;
        assert close[1..] == rest;
        if items != [] {
          ItemsInvert(items, style, close);
          ItemsStart(items, style);
          assert (RenderItems(items, style) + close)[0] == RenderItems(items, style)[0];
        }
        assert ParseItems(s[1..]) == Parsed(items, rest);
    }
  }

  lemma {:induction false} ResultInverts(r: MiResult, style: char -> Style, rest: string)
    requires WfResult(r)
    ensures ParseResult(RenderResult(r, style) + rest) == Parsed(r, rest)
    ensures var n := IdentifierLength(RenderResult(r, style) + rest);
            0 < n < |RenderResult(r, style) + rest| && (RenderResult(r, style) + rest)[n] == '='
    decreases r
  {
    ValueInverts(r.value, style, rest);
    ResultParses(r, RenderValue(r.value, style), rest);
  }

  lemma {:induction false} ResultParses(r: MiResult, body: string, rest: string)
    requires Identifier(r.variable) && ParseValue(body + rest) == Parsed(r.value, rest)
    ensures var s := r.variable + "=" + body + rest;
            ParseResult(s) == Parsed(r, rest) && |r.variable| < |s|
            && IdentifierLength(s) == |r.variable| && s[|r.variable|] == '='
  {
    assert r.variable + "=" + body + rest == r.variable + ("=" + (body + rest));
    EqualsParses(r, "=" + (body + rest), rest);
  }

  lemma {:induction false} EqualsParses(r: MiResult, after: string, rest: string)
    requires Identifier(r.variable) && after != [] && after[0] == '='
    requires ParseValue(after[1..]) == Parsed(r.value, rest)
    ensures var s := r.variable + after;
            ParseResult(s) == Parsed(r, rest) && IdentifierLength(s) == |r.variable| && s[|r.variable|] == '='
  {
    var s := r.variable + after;
    IdentifierRun(r.variable, after);
    assert s[..|r.variable|] == r.variable;
    assert s[|r.variable| + 1..] == after[1..];
  }

  lemma ResultsStart(rs: seq<MiResult>, style: char -> Style)
    requires rs != [] && WfResults(rs)
    ensures RenderResults(rs, style) != [] && IsIdentifier(RenderResults(rs, style)[0])
  {
    assert RenderResults(rs, style)[0] == rs[0].variable[0];
  }

  lemma OneResult(r: MiResult, first: string, rest: string, terminator: Option<char>)
    requires ParseResult(first + rest) == Parsed(r, rest)
    requires terminator != Some(',') && (rest == [] || Some(rest[0]) == terminator)
    ensures ParseResults1(first + rest, terminator) == Parsed([r], rest)
  {}

  lemma {:induction false} ResultsStep(
    r: MiResult, first: string, rs: seq<MiResult>, second: string, rest: string, terminator: Option<char>)
    requires ParseResult(first + ("," + second + rest)) == Parsed(r, "," + second + rest)
    requires ParseResults1(second + rest, terminator) == Parsed(rs, rest)
    ensures ParseResults1(first + ("," + second) + rest, terminator) == Parsed([r] + rs, rest)
  {
    assert first + ("," + second) + rest == first + ("," + second + rest);
    assert ("," + second + rest)[1..] == second + rest;
  }

  lemma {:induction false} ResultsInvert(
    rs: seq<MiResult>, style: char -> Style, terminator: Option<char>, rest: string)
    requires rs != [] && WfResults(rs) && terminator != Some(',')
    requires rest == [] || Some(rest[0]) == terminator
    ensures ParseResults1(RenderResults(rs, style) + rest, terminator) == Parsed(rs, rest)
    decreases rs
  {
    var first := RenderResult(rs[0], style);
    if |rs| == 1 {
      ResultInverts(rs[0], style, rest);
      OneResult(rs[0], first, rest, terminator);
      assert RenderResults(rs, style) == first && [rs[0]] == rs;
    } else {
      var second := RenderResults(rs[1..], style);
      ResultInverts(rs[0], style, "," + second + rest);
      ResultsInvert(rs[1..], style, terminator, rest);
      ResultsStep(rs[0], first, rs[1..], second, rest, terminator);
      assert RenderResults(rs, style) == first + ("," + second);
      assert [rs[0]] + rs[1..] == rs;
    }
  }

  lemma {:induction false} ItemsStart(items: seq<MiListItem>, style: char -> Style)
    requires items != [] && WfItems(items)
    ensures RenderItems(items, style) != [] && RenderItems(items, style)[0] != ']'
  {
    ItemStart(items[0], style);
    assert RenderItems(items, style)[0] == RenderItem(items[0], style)[0];
  }

  lemma {:induction false} ItemStart(item: MiListItem, style: char -> Style)
    requires WfItem(item)
    ensures RenderItem(item, style) != [] && RenderItem(item, style)[0] != ']'
  {
    match item {
      case Value(v) =>
        ValueInverts(v, style, []);
      case Item(r) =>
        assert WfResult(r) && RenderResult(r, style)[0] == r.variable[0];
    }
  }

  lemma {:induction false} ItemInverts(item: MiListItem, style: char -> Style, rest: string)
    requires WfItem(item)
    ensures ParseItem(RenderItem(item, style) + rest) == Parsed(item, rest)
    decreases item
  {
    match item {
      case Value(v) =>
        ValueInverts(v, style, rest);
        assert (RenderItem(item, style) + rest)[0] == RenderValue(v, style)[0];
      case Item(r) =>
        ResultInverts(r, style, rest);
    }
  }

  lemma OneItem(item: MiListItem, first: string, rest: string)
    requires rest != [] && rest[0] == ']' && ParseItem(first + rest) == Parsed(item, rest)
    ensures ParseItems1(first + rest) == Parsed([item], rest[1..])
  {}

  lemma {:induction false} ItemsStep(
    item: MiListItem, first: string, items: seq<MiListItem>, second: string, rest: string, after: string)
    requires ParseItem(first + ("," + second + rest)) == Parsed(item, "," + second + rest)
    requires ParseItems1(second + rest) == Parsed(items, after)
    ensures ParseItems1(first + ("," + second) + rest) == Parsed([item] + items, after)
  {
    assert first + ("," + second) + rest == first + ("," + second + rest);
    assert ("," + second + rest)[1..] == second + rest;
  }

  lemma {:induction false} ItemsInvert(items: seq<MiListItem>, style: char -> Style, rest: string)
    requires items != [] && WfItems(items)
    requires rest != [] && rest[0] == ']'
    ensures ParseItems1(RenderItems(items, style) + rest) == Parsed(items, rest[1..])
    decreases items
  {
    var first := RenderItem(items[0], style);
    if |items| == 1 {
      ItemInverts(items[0], style, rest);
      OneItem(items[0], first, rest);
      assert RenderItems(items, style) == first && [items[0]] == items;
    } else {
      var second := RenderItems(items[1..], style);
      ItemInverts(items[0], style, "," + second + rest);
      ItemsInvert(items[1..], style, rest);
      ItemsStep(items[0], first, items[1..], second, rest, rest[1..]);
      assert RenderItems(items, style) == first + ("," + second);
      assert [items[0]] + items[1..] == items;
    }
  }

  // ---- Records ----

  lemma {:induction false} ClassifiedInverts(
    token: Option<nat>, prefix: char, cls: string, results: seq<MiResult>, style: char -> Style)
    requires IsClassPrefix(prefix) && Identifier(cls) && WfResults(results)
    requires token.Some? ==> token.value <= U64_MAX
    ensures ParseClassified(token, prefix, cls + RenderTail(results, style)) ==
            Ok(Classified(token, prefix, cls, results))
  {
    ClassSplits(cls, RenderTail(results, style));
    if results != [] {
      TailInverts(prefix, cls, results, style);
      assert RenderTail(results, style)[1..] == RenderResults(results, style);
    }
  }

  lemma {:induction false} ClassSplits(cls: string, tail: string)
    requires Identifier(cls) && (tail == [] || tail[0] == ',')
    ensures FirstIndex(cls + tail, ',') == |cls| && (cls + tail)[..|cls|] == cls
    ensures tail != [] ==> (cls + tail)[|cls| + 1..] == tail[1..]
  {
    var s := cls + tail;
    assert forall i :: 0 <= i < |cls| ==> s[i] == cls[i] && IsIdentifier(cls[i]);
    FirstIndexAt(s, ',', |cls|);
  }

  lemma {:induction false} TailInverts(prefix: char, cls: string, results: seq<MiResult>, style: char -> Style)
    requires results != [] && WfResults(results)
    ensures Complete(ParseTail(prefix, cls, RenderResults(results, style))) == Ok(results)
  {
    var body := RenderResults(results, style);
    ResultsStart(results, style);
    ResultsInvert(results, style, None, []);
    assert body + [] == body;
    assert ParseResults(body, None) == ParseResults1(body, None);
  }

  lemma {:induction false} DigitsRun(digits: string, rest: string)
    requires forall i :: 0 <= i < |digits| ==> IsDigit(digits[i])
    requires rest == [] || !IsDigit(rest[0])
    ensures DigitsLength(digits + rest) == |digits|
  {
    var s := digits + rest;
    var n := DigitsLength(s);
    assert |digits| < |s| ==> s[|digits|] == rest[0];
    assert forall i :: 0 <= i < |digits| ==> s[i] == digits[i];
  }

  /** `parse_record` of a record's rendering returns exactly that record. */
  lemma {:induction false} RecordInverts(r: MiRecord, style: char -> Style, gdb: bool)
    requires WfRecord(r)
    ensures ParseRecord(RenderRecord(r, style, gdb)) == Ok(r)
  {
    var s := RenderRecord(r, style, gdb);
    match r {
      case Prompt =>
      case Console(text) => StreamInverts('~', text, style);
      case Target(text) => StreamInverts('@', text, style);
      case Log(text) => StreamInverts('&', text, style);
      case ResultRecord(token, cls, results) =>
        PrefixedInverts(token, if token.Some? then Decimal(token.value) else [], '^', cls, results, style);
      case Exec(cls, results) =>
        PrefixedInverts(None, [], '*', cls, results, style);
        assert s == [] + s;
      case Status(cls, results) =>
        if gdb && IsProgress(r) {
          ProgressFields(r);
          ProgressInverts(results[0].value.fields, style);
        } else {
          PrefixedInverts(None, [], '+', cls, results, style);
          assert s == [] + s;
        }
      case Notify(cls, results) =>
        PrefixedInverts(None, [], '=', cls, results, style);
        assert s == [] + s;
    }
  }

  /** The unnamed tuple of a download progress is read under the name `progress`. */
  lemma {:induction false} ProgressInverts(fields: seq<MiResult>, style: char -> Style)
    requires WfValue(Tuple(fields))
    ensures ParseRecord("+" + ("download" + ("," + RenderValue(Tuple(fields), style)))) ==
            Ok(Status("download", [MiResult("progress", Tuple(fields))]))
  {
    var cls: string := "download";
    var value := RenderValue(Tuple(fields), style);
    var after := ['+'] + (cls + ("," + value));
    assert value[0] == '{' && value + [] == value;
    ValueInverts(Tuple(fields), style, []);
    ClassSplits(cls, "," + value);
    assert ("," + value)[1..] == value && after[0] == '+' && after[1..] == cls + ("," + value) && [] + after == after;
    PrefixedParses(None, [], after);
  }

  /** Exactly two texts are the prompt: with and without a blank at the end. */
  lemma {:induction false} PromptIff(s: string)
    ensures ParseRecord(s) == Ok(Prompt) <==> s == "(gdb)" || s == "(gdb)" + " "
  {
    assert "(gdb)" + " " == "(gdb) ";
    if s != "(gdb)" && s != "(gdb) " {
      assert ParseRecord(s) == ParseNumbered(s);
    }
  }

  lemma {:induction false} StreamInverts(prefix: char, text: string, style: char -> Style)
    requires IsStreamPrefix(prefix) && Utf8.Valid(text)
    ensures ParseRecord([prefix] + RenderString(text, style)) ==
            Ok(Stream(prefix, text))
  {
    var s := [prefix] + RenderString(text, style);
    assert s[0] == prefix && DigitsLength(s) == 0;
    assert s[1..] == RenderString(text, style);
    CStringInverts(text, style, []);
    assert RenderString(text, style) + [] == RenderString(text, style);
  }

  lemma {:induction false} PrefixedInverts(
    token: Option<nat>, digits: string, prefix: char, cls: string, results: seq<MiResult>,
                        style: char -> Style)
    requires IsClassPrefix(prefix) && Identifier(cls) && WfResults(results)
    requires token.Some? ==> token.value <= U64_MAX
    requires digits == if token.Some? then Decimal(token.value) else []
    ensures ParseRecord(digits + ([prefix] + (cls + RenderTail(results, style)))) ==
            Ok(Classified(token, prefix, cls, results))
  {
    ClassifiedInverts(token, prefix, cls, results, style);
    TokenInverts(token, digits);
    var after := [prefix] + (cls + RenderTail(results, style));
    assert after[0] == prefix && after[1..] == cls + RenderTail(results, style);
    PrefixedParses(token, digits, after);
  }

  lemma {:induction false} TokenInverts(token: Option<nat>, digits: string)
    requires token.Some? ==> token.value <= U64_MAX
    requires digits == if token.Some? then Decimal(token.value) else []
    ensures forall i :: 0 <= i < |digits| ==> IsDigit(digits[i])
    ensures ParseToken(digits) == Ok(token)
  {
    if token.Some? {
      DecimalRoundTrip(token.value);
    }
  }

  lemma {:induction false} NotPrompt(s: string)
    requires s != [] && s[0] != '('
    ensures ParseRecord(s) == ParseNumbered(s)
  {
    assert "(gdb)"[0] == '(' && "(gdb) "[0] == '(';
  }

  lemma {:induction false} PrefixedParses(token: Option<nat>, digits: string, after: string)
    requires after != [] && IsClassPrefix(after[0]) && forall i :: 0 <= i < |digits| ==> IsDigit(digits[i])
    requires ParseToken(digits) == Ok(token)
    ensures ParseRecord(digits + after) == ParseClassified(token, after[0], after[1..])
  {
    var s := digits + after;
    DigitsRun(digits, after);
    assert s[..|digits|] == digits;
    assert s[|digits|..] == after;
    assert ParsePrefixed(token, after) == ParseClassified(token, after[0], after[1..]);
    NotPrompt(s);
  }

  /** The records `parse_record` can return are exactly the well-formed ones. */
  lemma {:induction false} ParsedRecords(r: MiRecord)
    ensures WfRecord(r) <==> exists s :: ParseRecord(s) == Ok(r)
  {
    if WfRecord(r) {
      RecordInverts(r, QuoteStyle, true);
    }
  }

  /** No two records share a rendering, in any two styles and forms. */
  lemma {:induction false} RenderInjective(
    a: MiRecord, styleA: char -> Style, gdbA: bool, b: MiRecord, styleB: char -> Style, gdbB: bool)
    requires WfRecord(a) && WfRecord(b) && RenderRecord(a, styleA, gdbA) == RenderRecord(b, styleB, gdbB)
    ensures a == b
  {
    RecordInverts(a, styleA, gdbA);
    RecordInverts(b, styleB, gdbB);
  }
}
