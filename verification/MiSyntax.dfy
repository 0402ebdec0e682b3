/** The GDB/MI output records of `mi.rs`, the grammar its parser accepts, and their rendering. */
module MiSyntax {
  import opened Common
  import Utf8

  datatype MiRecord =
    | ResultRecord(token: Option<nat>, cls: string, results: seq<MiResult>)
    | Exec(cls: string, results: seq<MiResult>)
    | Status(cls: string, results: seq<MiResult>)
    | Notify(cls: string, results: seq<MiResult>)
    | Console(text: string)
    | Target(text: string)
    | Log(text: string)
    | Prompt

  datatype MiResult = MiResult(variable: string, value: MiValue)

  datatype MiValue =
    | Const(text: string)
    | Tuple(fields: seq<MiResult>)
    | List(items: seq<MiListItem>)

  datatype MiListItem = Value(value: MiValue) | Item(result: MiResult)

  function MiError(code: Code): Failure {
    Failure(Debugger, code)
  }

  const INVALID := MiError(MI_RECORD_INVALID)

  /** Outcome of parsing a prefix of a text: the value and what follows it, or a failure. */
  datatype Parse<+T> = Parsed(value: T, rest: string) | Bad(error: Failure)

  predicate IsStreamPrefix(c: char) {
    c == '~' || c == '@' || c == '&'
  }

  predicate IsClassPrefix(c: char) {
    c == '^' || c == '*' || c == '+' || c == '='
  }

  predicate IsIdentifier(c: char) {
    'a' <= c <= 'z' || 'A' <= c <= 'Z' || '0' <= c <= '9' || c == '-' || c == '_'
  }

  predicate Identifier(s: string) {
    s != [] && forall i :: 0 <= i < |s| ==> IsIdentifier(s[i])
  }

  function IdentifierLength(s: string): (n: nat)
    ensures n <= |s|
    ensures forall i :: 0 <= i < n ==> IsIdentifier(s[i])
    ensures n < |s| ==> !IsIdentifier(s[n])
  {
    if s == [] || !IsIdentifier(s[0]) then 0 else 1 + IdentifierLength(s[1..])
  }

  function DigitsLength(s: string): (n: nat)
    ensures n <= |s|
    ensures forall i :: 0 <= i < n ==> IsDigit(s[i])
    ensures n < |s| ==> !IsDigit(s[n])
  {
    if s == [] || !IsDigit(s[0]) then 0 else 1 + DigitsLength(s[1..])
  }

  // ---- What a well-formed record is ----

  predicate WfValue(v: MiValue)
    decreases v
  {
    match v
    case Const(text) => Utf8.Valid(text)
    case Tuple(fields) => WfResults(fields)
    case List(items) => WfItems(items)
  }

  predicate WfResult(r: MiResult)
    decreases r
  {
    Identifier(r.variable) && WfValue(r.value)
  }

  predicate WfResults(rs: seq<MiResult>)
    decreases rs
  {
    rs == [] || (WfResult(rs[0]) && WfResults(rs[1..]))
  }

  predicate WfItem(it: MiListItem)
    decreases it
  {
    match it
    case Value(v) => WfValue(v)
    case Item(r) => WfResult(r)
  }

  predicate WfItems(items: seq<MiListItem>)
    decreases items
  {
    items == [] || (WfItem(items[0]) && WfItems(items[1..]))
  }

  predicate WfRecord(r: MiRecord) {
    match r
    case ResultRecord(token, cls, results) =>
      (token.Some? ==> token.value <= U64_MAX) && Identifier(cls) && WfResults(results)
    case Exec(cls, results) => Identifier(cls) && WfResults(results)
    case Status(cls, results) => Identifier(cls) && WfResults(results)
    case Notify(cls, results) => Identifier(cls) && WfResults(results)
    case Console(text) => Utf8.Valid(text)
    case Target(text) => Utf8.Valid(text)
    case Log(text) => Utf8.Valid(text)
    case Prompt => true
  }

  // ---- The grammar, as functions of the text that is still to be read ----

  predicate IsOctal(c: char) {
    '0' <= c <= '7'
  }

  function OctalDigit(c: char): (d: nat)
    requires IsOctal(c)
    ensures d <= 7
  {
    c as int - '0' as int
  }

  /** One step of the saturating 8-bit accumulation of an octal escape. */
  function OctalStep(value: nat, c: char): (r: nat)
    requires value <= 255 && IsOctal(c)
    ensures r <= 255
  {
    Min(255, Min(255, value * 8) + OctalDigit(c))
  }

  function ParseOctal(value: nat, more: nat, s: string): (p: Parse<char>)
    requires value <= 255
    ensures p.Parsed? && p.value as int < 256 && |p.rest| <= |s|
    decreases more
  {
    if more == 0 || s == [] || !IsOctal(s[0]) then Parsed(value as char, s)
    else ParseOctal(OctalStep(value, s[0]), more - 1, s[1..])
  }

  function SimpleEscape(c: char): Option<char> {
    match c
    case 'n' => Some('\n')
    case 'r' => Some('\r')
    case 't' => Some('\t')
    case 'b' => Some(8 as char)
    case 'f' => Some(12 as char)
    case 'v' => Some(11 as char)
    case 'a' => Some(7 as char)
    case '"' => Some('"')
    case '\\' => Some('\\')
    case _ => None
  }

  /** The text after a backslash. */
  function ParseEscape(s: string): (p: Parse<char>)
    ensures p.Parsed? ==> |p.rest| < |s|
  {
    if s == [] then Bad(INVALID)
    else if SimpleEscape(s[0]).Some? then Parsed(SimpleEscape(s[0]).value, s[1..])
    else if IsOctal(s[0]) then ParseOctal(OctalDigit(s[0]), 2, s[1..])
    else Bad(INVALID)
  }

  /** Puts what was read before in front of what a parse reads. */
  function Prepend<T>(front: seq<T>, p: Parse<seq<T>>): Parse<seq<T>> {
    match p
    case Parsed(value, rest) => Parsed(front + value, rest)
    case Bad(e) => Bad(e)
  }

  lemma {:induction false} PrependPrepend<T>(a: seq<T>, b: seq<T>, p: Parse<seq<T>>)
    ensures Prepend(a, Prepend(b, p)) == Prepend(a + b, p)
  {
    if p.Parsed? {
      assert a + (b + p.value) == (a + b) + p.value;
    }
  }

  lemma {:induction false} PrependNothing<T>(p: Parse<seq<T>>)
    ensures Prepend([], p) == p
  {
    if p.Parsed? {
      assert [] + p.value == p.value;
    }
  }

  /** The bytes of a C string up to and including its closing quote. */
  function StringBody(s: string): (p: Parse<string>)
    ensures p.Parsed? ==> |p.rest| < |s|
    decreases |s|
  {
    if s == [] then Bad(INVALID)
    else if s[0] == '"' then Parsed([], s[1..])
    else if s[0] == '\\' then
      match ParseEscape(s[1..])
      case Bad(e) => Bad(e)
      case Parsed(c, rest) => Prepend([c], StringBody(rest))
    else Prepend([s[0]], StringBody(s[1..]))
  }

  function ParseCString(s: string): (p: Parse<string>)
    ensures p.Parsed? ==> |p.rest| < |s| && Utf8.Valid(p.value)
  {
    if s == [] || s[0] != '"' then Bad(INVALID)
    else
      match StringBody(s[1..])
      case Bad(e) => Bad(e)
      case Parsed(bytes, rest) => if Utf8.Valid(bytes) then Parsed(bytes, rest) else Bad(MiError(MI_UTF8_INVALID))
  }

  function ParseValue(s: string): (p: Parse<MiValue>)
    ensures p.Parsed? ==> |p.rest| < |s| && WfValue(p.value)
    decreases |s|, 1
  {
    if s == [] then Bad(INVALID)
    else if s[0] == '"' then
      match ParseCString(s)
      case Bad(e) => Bad(e)
      case Parsed(text, rest) => Parsed(Const(text), rest)
    else if s[0] == '{' then
      match ParseResults(s[1..], Some('}'))
      case Bad(e) => Bad(e)
      case Parsed(fields, rest) =>
        if rest == [] || rest[0] != '}' then Bad(INVALID) else Parsed(Tuple(fields), rest[1..])
    else if s[0] == '[' then
      ParseList(s)
    else Bad(INVALID)
  }

  function ParseResult(s: string): (p: Parse<MiResult>)
    ensures p.Parsed? ==> |p.rest| < |s| && WfResult(p.value)
    decreases |s|, 0
  {
    var n := IdentifierLength(s);
    if n == 0 || n == |s| || s[n] != '=' then Bad(INVALID)
    else
      match ParseValue(s[n + 1..])
      case Bad(e) => Bad(e)
      case Parsed(v, rest) => assert Identifier(s[..n]); Parsed(MiResult(s[..n], v), rest)
  }

  /** A possibly empty result sequence, up to but not including its terminator. */
  function ParseResults(s: string, terminator: Option<char>): (p: Parse<seq<MiResult>>)
    ensures p.Parsed? ==> |p.rest| <= |s| && WfResults(p.value)
    decreases |s|, 2
  {
    if terminator.Some? && s != [] && s[0] == terminator.value then Parsed([], s)
    else ParseResults1(s, terminator)
  }

  function ParseResults1(s: string, terminator: Option<char>): (p: Parse<seq<MiResult>>)
    ensures p.Parsed? ==> |p.rest| <= |s| && WfResults(p.value)
    decreases |s|, 1
  {
    match ParseResult(s)
    case Bad(e) => Bad(e)
    case Parsed(r, rest) =>
      if rest != [] && rest[0] == ',' then
        var p := Prepend([r], ParseResults1(rest[1..], terminator));
        assert p.Parsed? ==> p.value[0] == r && p.value[1..] == ParseResults1(rest[1..], terminator).value;
        p
      else if rest == [] || Some(rest[0]) == terminator then Parsed([r], rest)
      else Bad(INVALID)
  }

  function ParseList(s: string): (p: Parse<MiValue>)
    ensures p.Parsed? ==> |p.rest| < |s| && WfValue(p.value)
    decreases |s|, 0
  {
    if s == [] || s[0] != '[' then Bad(INVALID)
    else
      match ParseItems(s[1..])
      case Bad(e) => Bad(e)
      case Parsed(items, rest) => Parsed(List(items), rest)
  }

  /** A possibly empty item sequence and the bracket that closes it. */
  function ParseItems(s: string): (p: Parse<seq<MiListItem>>)
    ensures p.Parsed? ==> |p.rest| < |s| && WfItems(p.value)
    decreases |s|, 4
  {
    if s != [] && s[0] == ']' then Parsed([], s[1..]) else ParseItems1(s)
  }

  function ParseItem(s: string): (p: Parse<MiListItem>)
    ensures p.Parsed? ==> |p.rest| < |s| && WfItem(p.value)
    decreases |s|, 2
  {
    var n := IdentifierLength(s);
    if 0 < n < |s| && s[n] == '=' then
      match ParseResult(s)
      case Bad(e) => Bad(e)
      case Parsed(r, rest) => Parsed(Item(r), rest)
    else
      match ParseValue(s)
      case Bad(e) => Bad(e)
      case Parsed(v, rest) => Parsed(Value(v), rest)
  }

  function ParseItems1(s: string): (p: Parse<seq<MiListItem>>)
    ensures p.Parsed? ==> |p.rest| < |s| && WfItems(p.value)
    decreases |s|, 3
  {
    match ParseItem(s)
    case Bad(e) => Bad(e)
    case Parsed(item, rest) =>
      if rest == [] then Bad(INVALID)
      else if rest[0] == ',' then
        var p := Prepend([item], ParseItems1(rest[1..]));
        assert p.Parsed? ==> p.value[0] == item && p.value[1..] == ParseItems1(rest[1..]).value;
        p
      else if rest[0] == ']' then Parsed([item], rest[1..])
      else Bad(INVALID)
  }

  /** Everything must have been read. */
  function Complete<T>(p: Parse<T>): Result<T> {
    match p
    case Bad(e) => Err(e)
    case Parsed(v, rest) => if rest == [] then Ok(v) else Err(INVALID)
  }

  /** The results after the comma that follows a class. */
  function ParseTail(prefix: char, cls: string, s: string): (p: Parse<seq<MiResult>>)
    ensures p.Parsed? ==> WfResults(p.value)
  {
    if prefix == '+' && cls == "download" && s != [] && s[0] == '{' then
      match ParseValue(s)
      case Bad(e) => Bad(e)
      case Parsed(v, rest) =>
        var anonymous := MiResult("progress", v);
        assert WfResult(anonymous) && WfResults([anonymous][1..]);
        Parsed([anonymous], rest)
    else ParseResults(s, None)
  }

  /** The record that a prefix, a class and results make; only a result record keeps its token. */
  function Classified(token: Option<nat>, prefix: char, cls: string, results: seq<MiResult>): MiRecord
    requires IsClassPrefix(prefix)
  {
    if prefix == '^' then ResultRecord(token, cls, results)
    else if prefix == '*' then Exec(cls, results)
    else if prefix == '+' then Status(cls, results)
    else Notify(cls, results)
  }

  function Stream(prefix: char, text: string): MiRecord
    requires IsStreamPrefix(prefix)
  {
    if prefix == '~' then Console(text) else if prefix == '@' then Target(text) else Log(text)
  }

  function ParseClassified(token: Option<nat>, prefix: char, s: string): (r: Result<MiRecord>)
    requires IsClassPrefix(prefix)
    requires token.Some? ==> token.value <= U64_MAX
    ensures r.Ok? ==> WfRecord(r.value)
  {
    var n := FirstIndex(s, ',');
    var cls := s[..n];
    if !Identifier(cls) then Err(INVALID)
    else
      match if n == |s| then Ok([]) else Complete(ParseTail(prefix, cls, s[n + 1..]))
      case Err(e) => Err(e)
      case Ok(results) =>
        Ok(Classified(token, prefix, cls, results))
  }

  function ParseStream(prefix: char, s: string): (r: Result<MiRecord>)
    requires IsStreamPrefix(prefix)
    ensures r.Ok? ==> WfRecord(r.value)
  {
    match Complete(ParseCString(s))
    case Err(e) => Err(e)
    case Ok(text) =>
      Ok(Stream(prefix, text))
  }

  /** One line without its line terminator. */
  function ParseRecord(s: string): (r: Result<MiRecord>)
    ensures r.Ok? ==> WfRecord(r.value)
  {
    if s == "(gdb)" || s == "(gdb) " then Ok(Prompt) else ParseNumbered(s)
  }

  /** The optional token that the digits at the head of a line denote. */
  function ParseToken(digits: string): (r: Result<Option<nat>>)
    requires forall i :: 0 <= i < |digits| ==> IsDigit(digits[i])
    ensures r.Ok? && r.value.Some? ==> r.value.value <= U64_MAX
  {
    if digits == [] then Ok(None)
    else if DecimalValue(digits) > U64_MAX then Err(MiError(MI_TOKEN_INVALID))
    else Ok(Some(DecimalValue(digits)))
  }

  function ParsePrefixed(token: Option<nat>, s: string): (r: Result<MiRecord>)
    requires token.Some? ==> token.value <= U64_MAX
    ensures r.Ok? ==> WfRecord(r.value)
  {
    if s == [] then Err(INVALID)
    else if IsStreamPrefix(s[0]) then
      if token.Some? then Err(INVALID) else ParseStream(s[0], s[1..])
    else if IsClassPrefix(s[0]) then ParseClassified(token, s[0], s[1..])
    else Err(INVALID)
  }

  function ParseNumbered(s: string): (r: Result<MiRecord>)
    ensures r.Ok? ==> WfRecord(r.value)
  {
    var n := DigitsLength(s);
    match ParseToken(s[..n])
    case Err(e) => Err(e)
    case Ok(token) => ParsePrefixed(token, s[n..])
  }

  // ---- Rendering ----

  /** How a byte of a string is written; a quote or backslash is escaped even when `Raw` is asked for. */
  datatype Style = Raw | Short | Octal

  function ShortEscape(c: char): Option<char> {
    if c == '\n' then Some('n') else if c == '\r' then Some('r') else if c == '\t' then Some('t')
    else if c as int == 8 then Some('b') else if c as int == 12 then Some('f')
    else if c as int == 11 then Some('v') else if c as int == 7 then Some('a')
    else if c == '"' || c == '\\' then Some(c)
    else None
  }

  function OctalChar(d: nat): (c: char)
    requires d <= 7
    ensures IsOctal(c) && OctalDigit(c) == d
  {
    ('0' as int + d) as char
  }

  function EncodeByte(c: char, style: Style): string {
    if style == Octal && c as int < 256 then
      ['\\', OctalChar(c as int / 64), OctalChar(c as int / 8 % 8), OctalChar(c as int % 8)]
    else if (style == Short || c == '"' || c == '\\') && ShortEscape(c).Some? then ['\\', ShortEscape(c).value]
    else [c]
  }

  function Encode(s: string, style: char -> Style): string {
    if s == [] then [] else EncodeByte(s[0], style(s[0])) + Encode(s[1..], style)
  }

  /** `mi_quote` of session.rs: only the three common control characters are shortened. */
  function QuoteStyle(c: char): Style {
    if c == '\n' || c == '\r' || c == '\t' then Short else Raw
  }

  function Quote(s: string): string {
    RenderString(s, QuoteStyle)
  }

  function RenderString(s: string, style: char -> Style): string {
    "\"" + Encode(s, style) + "\""
  }

  function RenderValue(v: MiValue, style: char -> Style): string
    decreases v
  {
    match v
    case Const(text) => RenderString(text, style)
    case Tuple(fields) => "{" + RenderResults(fields, style) + "}"
    case List(items) => "[" + RenderItems(items, style) + "]"
  }

  function RenderResult(r: MiResult, style: char -> Style): string
    decreases r
  {
    r.variable + "=" + RenderValue(r.value, style)
  }

  function RenderResults(rs: seq<MiResult>, style: char -> Style): string
    decreases rs
  {
    if rs == [] then []
    else RenderResult(rs[0], style) + (if |rs| == 1 then [] else "," + RenderResults(rs[1..], style))
  }

  function RenderItem(it: MiListItem, style: char -> Style): string
    decreases it
  {
    match it
    case Value(v) => RenderValue(v, style)
    case Item(r) => RenderResult(r, style)
  }

  function RenderItems(items: seq<MiListItem>, style: char -> Style): string
    decreases items
  {
    if items == [] then []
    else RenderItem(items[0], style) + (if |items| == 1 then [] else "," + RenderItems(items[1..], style))
  }

  function RenderTail(results: seq<MiResult>, style: char -> Style): string {
    if results == [] then [] else "," + RenderResults(results, style)
  }

  /** The download progress, whose tuple GDB writes without a name. */
  predicate IsProgress(r: MiRecord) {
    r.Status? && r.cls == "download" && |r.results| == 1
    && r.results[0].variable == "progress" && r.results[0].value.Tuple?
  }

  lemma {:induction false} ProgressFields(r: MiRecord)
    requires WfRecord(r) && IsProgress(r)
    ensures r == Status("download", [MiResult("progress", r.results[0].value)]) && WfValue(r.results[0].value)
  {
    assert WfResult(r.results[0]);
    assert r.results == [r.results[0]];
  }

  /** A record as the manual's grammar writes it, or as GDB does: with a blank after the prompt and an unnamed tuple
      in the download progress. */
  function RenderRecord(r: MiRecord, style: char -> Style, gdb: bool): string {
    match r
    case ResultRecord(token, cls, results) =>
      (if token.Some? then Decimal(token.value) else []) + ("^" + (cls + RenderTail(results, style)))
    case Exec(cls, results) => "*" + (cls + RenderTail(results, style))
    case Status(cls, results) =>
      "+" + (cls + if gdb && IsProgress(r) then "," + RenderValue(results[0].value, style)
                   else RenderTail(results, style))
    case Notify(cls, results) => "=" + (cls + RenderTail(results, style))
    case Console(text) => "~" + RenderString(text, style)
    case Target(text) => "@" + RenderString(text, style)
    case Log(text) => "&" + RenderString(text, style)
    case Prompt => if gdb then "(gdb) " else "(gdb)"
  }
}
