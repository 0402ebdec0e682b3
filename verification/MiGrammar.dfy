/** The lines that the parser accepts are exactly those that the grammar gives for some record, and it reads them as
    that record. */
module MiGrammar {
  import opened Common
  import opened MiSyntax
  import opened MiRoundTrip
  import Utf8

  // ---- The grammar ----

  /** One byte of a string as it may be written: itself, by a letter after a backslash, or by up to three octal
      digits. */
  datatype Unit = Plain(c: char) | Lettered(c: char) | Digits(digits: string)

  predicate UnitOk(u: Unit) {
    match u
    case Plain(c) => c != '"' && c != '\\'
    case Lettered(c) => ShortEscape(c).Some?
    case Digits(digits) => 1 <= |digits| <= 3 && forall i :: 0 <= i < |digits| ==> IsOctal(digits[i])
  }

  function UnitText(u: Unit): string
    requires UnitOk(u)
  {
    match u
    case Plain(c) => [c]
    case Lettered(c) => ['\\', ShortEscape(c).value]
    case Digits(digits) => ['\\'] + digits
  }

  /** Octal digits denote their value, but at most 255. */
  function UnitMeaning(u: Unit): char
    requires UnitOk(u)
  {
    match u
    case Plain(c) => c
    case Lettered(c) => c
    case Digits(digits) => Min(255, OctalValue(0, digits)) as char
  }

  /** Fewer than three octal digits are not followed by another one. */
  predicate Apart(u: Unit, next: Unit) {
    u.Digits? && |u.digits| < 3 && next.Plain? ==> !IsOctal(next.c)
  }

  predicate Units(us: seq<Unit>) {
    (forall i :: 0 <= i < |us| ==> UnitOk(us[i])) && (forall i :: 0 <= i < |us| - 1 ==> Apart(us[i], us[i + 1]))
  }

  function UnitsText(us: seq<Unit>): string
    requires Units(us)
  {
    if us == [] then [] else UnitText(us[0]) + UnitsText(us[1..])
  }

  function UnitsMeaning(us: seq<Unit>): string
    requires Units(us)
  {
    if us == [] then [] else [UnitMeaning(us[0])] + UnitsMeaning(us[1..])
  }

  /** A class or variable name: letters, digits, hyphens and underscores. */
  predicate Name(s: string) {
    s != [] && forall i :: 0 <= i < |s| ==>
      'a' <= s[i] <= 'z' || 'A' <= s[i] <= 'Z' || '0' <= s[i] <= '9' || s[i] == '-' || s[i] == '_'
  }

  ghost predicate WritesText(s: string, text: string) {
    Utf8.Valid(text) && exists us :: Units(us) && s == "\"" + UnitsText(us) + "\"" && UnitsMeaning(us) == text
  }

  ghost predicate WritesValue(s: string, v: MiValue)
    decreases v
  {
    match v
    case Const(text) => WritesText(s, text)
    case Tuple(fields) => exists body :: s == "{" + body + "}" && WritesResults(body, fields)
    case List(items) => exists body :: s == "[" + body + "]" && WritesItems(body, items)
  }

  ghost predicate WritesResult(s: string, r: MiResult)
    decreases r
  {
    Name(r.variable) && exists body :: s == r.variable + "=" + body && WritesValue(body, r.value)
  }

  /** Separated by commas. */
  ghost predicate WritesResults(s: string, rs: seq<MiResult>)
    decreases rs
  {
    if rs == [] then s == []
    else if |rs| == 1 then WritesResult(s, rs[0])
    else exists a, b :: s == a + ("," + b) && WritesResult(a, rs[0]) && WritesResults(b, rs[1..])
  }

  ghost predicate WritesItem(s: string, it: MiListItem)
    decreases it
  {
    match it
    case Value(v) => WritesValue(s, v)
    case Item(r) => WritesResult(s, r)
  }

  ghost predicate WritesItems(s: string, items: seq<MiListItem>)
    decreases items
  {
    if items == [] then s == []
    else if |items| == 1 then WritesItem(s, items[0])
    else exists a, b :: s == a + ("," + b) && WritesItem(a, items[0]) && WritesItems(b, items[1..])
  }

  // ---- Strings ----

  lemma UnitStarts(u: Unit)
    requires UnitOk(u)
    ensures UnitText(u) != [] && UnitText(u)[0] != '"'
    ensures UnitText(u)[0] == '\\' <==> !u.Plain?
    ensures u.Plain? ==> UnitText(u) == [u.c]
  {}

  /** An escape is read as what it means when what follows keeps it apart. */
  lemma {:induction false} EscapeReads(u: Unit, rest: string)
    requires UnitOk(u) && !u.Plain?
    requires u.Digits? && |u.digits| < 3 ==> rest == [] || !IsOctal(rest[0])
    ensures ParseEscape(UnitText(u)[1..] + rest) == Parsed(UnitMeaning(u), rest)
  {
    match u {
      case Lettered(c) =>
        assert SimpleEscape(ShortEscape(c).value) == Some(c);
        assert (UnitText(u)[1..] + rest)[1..] == rest;
      case Digits(digits) =>
        assert UnitText(u)[1..] == digits;
        OctalEscapeSaturates(digits, rest);
    }
  }

  lemma {:induction false} BodyReads(us: seq<Unit>, rest: string)
    requires Units(us)
    ensures StringBody(UnitsText(us) + "\"" + rest) == Parsed(UnitsMeaning(us), rest)
  {
    if us == [] {
      var s := UnitsText(us) + "\"" + rest;
      assert s[0] == '"' && s[1..] == rest;
    } else {
      BodyReads(us[1..], rest);
      NextStarts(us, rest);
      var u, after := us[0], UnitsText(us[1..]) + "\"" + rest;
      UnitsStep(us, rest);
      hide *;
      UnitReads(u, after);
    }
  }

  lemma UnitsStep(us: seq<Unit>, rest: string)
    requires Units(us) && us != []
    ensures UnitOk(us[0]) && Units(us[1..]) && UnitsMeaning(us) == [UnitMeaning(us[0])] + UnitsMeaning(us[1..])
    ensures UnitsText(us) + "\"" + rest == UnitText(us[0]) + (UnitsText(us[1..]) + "\"" + rest)
  {}

  /** One unit is read in front of what follows it. */
  lemma {:induction false} UnitReads(u: Unit, after: string)
    requires UnitOk(u)
    requires u.Digits? && |u.digits| < 3 ==> after == [] || !IsOctal(after[0])
    ensures StringBody(UnitText(u) + after) == Prepend([UnitMeaning(u)], StringBody(after))
  {
    hide UnitMeaning;
    var s := UnitText(u) + after;
    UnitStarts(u);
    if u.Plain? {
      hide UnitText;
      PlainMeaning(u);
      assert s[0] == u.c && s[1..] == after;
    } else {
      EscapeReads(u, after);
      hide UnitText;
      hide ParseEscape;
      assert s[0] == '\\' && s[1..] == UnitText(u)[1..] + after;
    }
  }

  lemma PlainMeaning(u: Unit)
    requires UnitOk(u) && u.Plain?
    ensures UnitMeaning(u) == u.c
  {}

  /** What follows the first unit does not continue its digits. */
  lemma {:induction false} NextStarts(us: seq<Unit>, rest: string)
    requires Units(us) && us != []
    ensures var after := UnitsText(us[1..]) + "\"" + rest;
            us[0].Digits? && |us[0].digits| < 3 ==> !IsOctal(after[0])
  {
    if |us| > 1 {
      UnitStarts(us[1]);
      assert Apart(us[0], us[1]);
      assert us[1..][0] == us[1];
    }
  }

  /** The digits that an octal escape takes. */
  lemma {:induction false} OctalTaken(value: nat, more: nat, s: string) returns (digits: string)
    requires value <= 255
    ensures |digits| <= more && (forall i :: 0 <= i < |digits| ==> IsOctal(digits[i]))
    ensures var rest := ParseOctal(value, more, s).rest;
            s == digits + rest && (|digits| < more ==> rest == [] || !IsOctal(rest[0]))
    decreases more
  {
    if more == 0 || s == [] || !IsOctal(s[0]) {
      digits := [];
    } else {
      var later := OctalTaken(OctalStep(value, s[0]), more - 1, s[1..]);
      digits := [s[0]] + later;
      assert s == [s[0]] + s[1..];
    }
  }

  /** The unit, followed by `rest`, is what is read after a backslash at the head of `s`. */
  predicate Heads(u: Unit, s: string, c: char, rest: string) {
    && UnitOk(u) && !u.Plain? && UnitMeaning(u) == c && ['\\'] + s == UnitText(u) + rest
    && (u.Digits? && |u.digits| < 3 ==> rest == [] || !IsOctal(rest[0]))
  }

  lemma {:induction false} LetterWritten(s: string) returns (u: Unit)
    requires s != [] && SimpleEscape(s[0]).Some?
    ensures Heads(u, s, SimpleEscape(s[0]).value, s[1..])
  {
    u := Lettered(SimpleEscape(s[0]).value);
    assert ShortEscape(u.c) == Some(s[0]);
    assert s == [s[0]] + s[1..];
  }

  lemma {:induction false} DigitsWritten(s: string) returns (u: Unit)
    requires s != [] && IsOctal(s[0])
    ensures ParseEscape(s).Parsed? && Heads(u, s, ParseEscape(s).value, ParseEscape(s).rest)
  {
    hide *;
    var first := OctalDigit(s[0]);
    var later := OctalTaken(first, 2, s[1..]);
    var rest := ParseOctal(first, 2, s[1..]).rest;
    u := Digits([s[0]] + later);
    DigitsUnit(s[0], later);
    assert s == [s[0]] + s[1..];
    EscapeReads(u, rest);
    assert u.digits + rest == s;
    HeadsIs(u, s, rest);
  }

  lemma DigitsUnit(d: char, later: string)
    requires IsOctal(d) && |later| <= 2 && forall i :: 0 <= i < |later| ==> IsOctal(later[i])
    ensures var u := Digits([d] + later); UnitOk(u) && UnitText(u) == ['\\'] + u.digits && UnitText(u)[1..] == u.digits
  {}

  lemma HeadsIs(u: Unit, s: string, rest: string)
    requires UnitOk(u) && !u.Plain? && ['\\'] + s == UnitText(u) + rest
    requires u.Digits? && |u.digits| < 3 ==> rest == [] || !IsOctal(rest[0])
    ensures Heads(u, s, UnitMeaning(u), rest)
  {}

  /** Every escape that is read is one of the grammar's. */
  lemma {:induction false} EscapeWritten(s: string) returns (u: Unit)
    requires ParseEscape(s).Parsed?
    ensures Heads(u, s, ParseEscape(s).value, ParseEscape(s).rest)
  {
    hide Heads;
    if SimpleEscape(s[0]).Some? {
      u := LetterWritten(s);
    } else {
      u := DigitsWritten(s);
    }
  }

  /** The units, and the quote after them, are what is read. */
  predicate Spells(us: seq<Unit>, s: string, text: string, rest: string) {
    Units(us) && s == UnitsText(us) + "\"" + rest && UnitsMeaning(us) == text
  }

  lemma {:induction false} SpellsMore(u: Unit, us: seq<Unit>, s: string, text: string, rest: string)
    requires Spells(us, s, text, rest) && UnitOk(u)
    requires u.Digits? && |u.digits| < 3 ==> s == [] || !IsOctal(s[0])
    ensures Spells([u] + us, UnitText(u) + s, [UnitMeaning(u)] + text, rest)
  {
    var all := [u] + us;
    assert all[1..] == us;
    if us != [] && us[0].Plain? {
      LaterStarts(us, rest);
    }
    UnitsCons(u, us);
    UnitsStep(all, rest);
    hide *;
  }

  lemma {:induction false} UnitsCons(u: Unit, us: seq<Unit>)
    requires Units(us) && UnitOk(u) && (us != [] ==> Apart(u, us[0]))
    ensures Units([u] + us)
  {
    var all := [u] + us;
    hide UnitOk;
    hide Apart;
    forall i | 0 <= i < |all|
      ensures UnitOk(all[i]) && (i < |all| - 1 ==> Apart(all[i], all[i + 1]))
    {
      if i > 0 {
        assert all[i] == us[i - 1] && UnitOk(us[i - 1]);
        if i < |all| - 1 {
          assert all[i + 1] == us[i] && Apart(us[i - 1], us[i]);
        }
      }
    }
  }

  lemma {:induction false} BodyWritten(s: string) returns (us: seq<Unit>)
    requires StringBody(s).Parsed?
    ensures Spells(us, s, StringBody(s).value, StringBody(s).rest)
    decreases |s|
  {
    if s[0] == '"' {
      us := [];
      assert s == "\"" + s[1..];
    } else if s[0] == '\\' {
      hide Spells;
      var u := EscapeWritten(s[1..]);
      var (c, rest) := (ParseEscape(s[1..]).value, ParseEscape(s[1..]).rest);
      hide ParseEscape;
      var later := BodyWritten(rest);
      us := [u] + later;
      hide UnitText;
      hide UnitMeaning;
      assert s == ['\\'] + s[1..];
      SpellsMore(u, later, rest, StringBody(rest).value, StringBody(rest).rest);
    } else {
      hide Spells;
      var later := BodyWritten(s[1..]);
      us := [Plain(s[0])] + later;
      assert s == [s[0]] + s[1..];
      SpellsMore(Plain(s[0]), later, s[1..], StringBody(s[1..]).value, StringBody(s[1..]).rest);
    }
  }

  lemma LaterStarts(us: seq<Unit>, rest: string)
    requires Units(us) && us != [] && us[0].Plain?
    ensures (UnitsText(us) + "\"" + rest)[0] == us[0].c
  {}

  lemma {:induction false} TextReads(s: string, text: string, rest: string)
    requires WritesText(s, text)
    ensures s != [] && s[0] == '"' && ParseCString(s + rest) == Parsed(text, rest)
  {
    var us :| Units(us) && s == "\"" + UnitsText(us) + "\"" && UnitsMeaning(us) == text;
    BodyReads(us, rest);
    CStringParses(UnitsText(us), text, rest);
  }

  lemma {:induction false} TextWritten(s: string) returns (a: string)
    requires ParseCString(s).Parsed?
    ensures s == a + ParseCString(s).rest && WritesText(a, ParseCString(s).value)
  {
    var us := BodyWritten(s[1..]);
    a := "\"" + UnitsText(us) + "\"";
    assert s == "\"" + s[1..];
    hide UnitsText;
    hide UnitsMeaning;
    hide Units;
    hide StringBody;
  }

  // ---- What is written is read ----

  lemma {:induction false} ValueReads(s: string, v: MiValue, rest: string)
    requires WritesValue(s, v)
    ensures s != [] && s[0] != ']' && !IsIdentifier(s[0]) && ParseValue(s + rest) == Parsed(v, rest)
    decreases v, 1
  {
    match v {
      case Const(text) =>
        TextReads(s, text, rest);
        hide ParseCString;
        assert (s + rest)[0] == s[0];
      case Tuple(fields) =>
        var body :| s == "{" + body + "}" && WritesResults(body, fields);
        FieldsRead(body, fields, "}" + rest);
        hide WritesResults;
        TupleParses(body, fields, rest);
        assert "{" + body + "}" + rest == s + rest;
      case List(items) =>
        var body :| s == "[" + body + "]" && WritesItems(body, items);
        ListReads(body, items, "]" + rest);
        hide WritesItems;
        ListParses(body, items, rest);
        assert "[" + body + "]" + rest == s + rest;
    }
  }

  lemma {:induction false} TupleParses(body: string, fields: seq<MiResult>, rest: string)
    requires ParseResults(body + ("}" + rest), Some('}')) == Parsed(fields, "}" + rest)
    ensures ParseValue("{" + body + "}" + rest) == Parsed(Tuple(fields), rest)
  {
    hide ParseResults;
    hide ParseCString;
    hide ParseList;
    hide WfValue;
    hide WfResults;
    var s, close := "{" + body + "}" + rest, "}" + rest;
    assert s[0] == '{' && s[1..] == body + close && close[1..] == rest;
  }

  lemma {:induction false} ListParses(body: string, items: seq<MiListItem>, rest: string)
    requires ParseItems(body + ("]" + rest)) == Parsed(items, ("]" + rest)[1..])
    ensures ParseValue("[" + body + "]" + rest) == Parsed(List(items), rest)
  {
    hide ParseItems;
    hide ParseCString;
    hide ParseResults;
    hide WfValue;
    hide WfItems;
    var s, close := "[" + body + "]" + rest, "]" + rest;
    assert s[0] == '[' && s[1..] == body + close && close[1..] == rest;
  }

  lemma {:induction false} FieldsRead(body: string, fields: seq<MiResult>, close: string)
    requires WritesResults(body, fields) && close != [] && close[0] == '}'
    ensures ParseResults(body + close, Some('}')) == Parsed(fields, close)
    decreases fields, 2
  {
    if fields == [] {
      assert body + close == close;
    } else {
      ResultsRead(body, fields, Some('}'), close);
    }
  }

  lemma {:induction false} ListReads(body: string, items: seq<MiListItem>, close: string)
    requires WritesItems(body, items) && close != [] && close[0] == ']'
    ensures ParseItems(body + close) == Parsed(items, close[1..])
    decreases items, 2
  {
    if items == [] {
      assert body + close == close;
    } else {
      ItemsRead(body, items, close);
    }
  }

  lemma {:induction false} ResultReads(s: string, r: MiResult, rest: string)
    requires WritesResult(s, r)
    ensures s != [] && IsIdentifier(s[0]) && ParseResult(s + rest) == Parsed(r, rest)
    ensures var n := IdentifierLength(s + rest); 0 < n < |s + rest| && (s + rest)[n] == '='
    decreases r
  {
    var body :| s == r.variable + "=" + body && WritesValue(body, r.value);
    ValueReads(body, r.value, rest);
    ResultParses(r, body, rest);
    assert r.variable + "=" + body + rest == s + rest;
  }

  lemma {:induction false} ResultsRead(s: string, rs: seq<MiResult>, terminator: Option<char>, rest: string)
    requires rs != [] && WritesResults(s, rs) && terminator != Some(',')
    requires rest == [] || Some(rest[0]) == terminator
    ensures s != [] && IsIdentifier(s[0]) && ParseResults1(s + rest, terminator) == Parsed(rs, rest)
    decreases rs, 1
  {
    if |rs| == 1 {
      ResultReads(s, rs[0], rest);
      OneResult(rs[0], s, rest, terminator);
      assert [rs[0]] == rs;
    } else {
      var a, b :| s == a + ("," + b) && WritesResult(a, rs[0]) && WritesResults(b, rs[1..]);
      ResultReads(a, rs[0], "," + b + rest);
      ResultsRead(b, rs[1..], terminator, rest);
      ResultsStep(rs[0], a, rs[1..], b, rest, terminator);
      assert [rs[0]] + rs[1..] == rs;
    }
  }

  lemma {:induction false} ItemReads(s: string, it: MiListItem, rest: string)
    requires WritesItem(s, it)
    ensures s != [] && s[0] != ']' && ParseItem(s + rest) == Parsed(it, rest)
    decreases it
  {
    match it {
      case Value(v) =>
        ValueReads(s, v, rest);
        assert (s + rest)[0] == s[0];
      case Item(r) => ResultReads(s, r, rest);
    }
  }

  lemma {:induction false} ItemsRead(s: string, items: seq<MiListItem>, rest: string)
    requires items != [] && WritesItems(s, items) && rest != [] && rest[0] == ']'
    ensures s != [] && s[0] != ']' && ParseItems1(s + rest) == Parsed(items, rest[1..])
    decreases items, 1
  {
    if |items| == 1 {
      ItemReads(s, items[0], rest);
      OneItem(items[0], s, rest);
      assert [items[0]] == items;
    } else {
      var a, b :| s == a + ("," + b) && WritesItem(a, items[0]) && WritesItems(b, items[1..]);
      ItemReads(a, items[0], "," + b + rest);
      ItemsRead(b, items[1..], rest);
      ItemsStep(items[0], a, items[1..], b, rest, rest[1..]);
      assert [items[0]] + items[1..] == items;
    }
  }

  // ---- What is read was written ----

  lemma {:induction false} ValueWritten(s: string) returns (a: string)
    requires ParseValue(s).Parsed?
    ensures s == a + ParseValue(s).rest && WritesValue(a, ParseValue(s).value)
    decreases |s|, 1
  {
    hide WritesResults;
    hide WritesItems;
    hide WritesText;
    hide ParseCString;
    hide ParseResults;
    hide ParseItems;
    if s[0] == '"' {
      a := TextWritten(s);
    } else if s[0] == '{' {
      var body := FieldsWritten(s[1..]);
      a := "{" + body + "}";
      var p := ParseResults(s[1..], Some('}'));
      Braced(s, body, p.rest, '{', '}');
      assert WritesValue(a, Tuple(p.value));
    } else {
      var body := ListWritten(s[1..]);
      a := "[" + body + "]";
      var p := ParseItems(s[1..]);
      Braced(s, body, "]" + p.rest, '[', ']');
      assert WritesValue(a, List(p.value));
    }
  }

  lemma Braced(s: string, body: string, close: string, opening: char, closing: char)
    requires s != [] && s[0] == opening && close != [] && close[0] == closing
    requires s[1..] == body + close
    ensures s == [opening] + body + [closing] + close[1..]
  {}

  lemma {:induction false} FieldsWritten(s: string) returns (a: string)
    requires ParseResults(s, Some('}')).Parsed?
    ensures s == a + ParseResults(s, Some('}')).rest && WritesResults(a, ParseResults(s, Some('}')).value)
    decreases |s|, 3
  {
    if s != [] && s[0] == '}' {
      a := [];
    } else {
      a := ResultsWritten(s, Some('}'));
    }
  }

  lemma {:induction false} ResultWritten(s: string) returns (a: string)
    requires ParseResult(s).Parsed?
    ensures s == a + ParseResult(s).rest && WritesResult(a, ParseResult(s).value)
    decreases |s|, 0
  {
    hide ParseValue;
    hide WritesValue;
    hide WfValue;
    var n := IdentifierLength(s);
    var body := ValueWritten(s[n + 1..]);
    a := s[..n] + "=" + body;
    assert s == s[..n] + "=" + s[n + 1..];
    assert ParseResult(s).value.variable == s[..n];
  }

  lemma {:induction false} ResultsWritten(s: string, terminator: Option<char>) returns (a: string)
    requires ParseResults1(s, terminator).Parsed?
    ensures s == a + ParseResults1(s, terminator).rest && WritesResults(a, ParseResults1(s, terminator).value)
    decreases |s|, 1
  {
    hide WritesResult;
    hide WritesResults;
    hide ParseResult;
    var first := ResultWritten(s);
    var r, rest := ParseResult(s).value, ParseResult(s).rest;
    if rest != [] && rest[0] == ',' {
      var later := ResultsWritten(rest[1..], terminator);
      var p := ParseResults1(rest[1..], terminator);
      NotEmptyResults(rest[1..], terminator);
      assert ParseResults1(s, terminator) == Prepend([r], p);
      hide ParseResults1;
      a := first + ("," + later);
      assert rest == "," + rest[1..];
      ResultsJoin(first, r, later, p.value);
    } else {
      a := first;
      OneWritten(first, r);
    }
  }

  lemma OneWritten(first: string, r: MiResult)
    requires WritesResult(first, r)
    ensures WritesResults(first, [r])
  {}

  lemma ResultsJoin(first: string, r: MiResult, later: string, rs: seq<MiResult>)
    requires WritesResult(first, r) && rs != [] && WritesResults(later, rs)
    ensures WritesResults(first + ("," + later), [r] + rs)
  {
    var all := [r] + rs;
    assert all[0] == r && all[1..] == rs;
    assert WritesResult(first, all[0]) && WritesResults(later, all[1..]);
  }

  lemma NotEmptyResults(s: string, terminator: Option<char>)
    requires ParseResults1(s, terminator).Parsed?
    ensures ParseResults1(s, terminator).value != []
  {}

  lemma {:induction false} ListWritten(s: string) returns (a: string)
    requires ParseItems(s).Parsed?
    ensures s == a + "]" + ParseItems(s).rest && WritesItems(a, ParseItems(s).value)
    decreases |s|, 4
  {
    if s != [] && s[0] == ']' {
      a := [];
      assert s == "]" + s[1..];
    } else {
      a := ItemsWritten(s);
    }
  }

  lemma {:induction false} ItemWritten(s: string) returns (a: string)
    requires ParseItem(s).Parsed?
    ensures s == a + ParseItem(s).rest && WritesItem(a, ParseItem(s).value)
    decreases |s|, 2
  {
    var n := IdentifierLength(s);
    if 0 < n < |s| && s[n] == '=' {
      a := ResultWritten(s);
    } else {
      a := ValueWritten(s);
    }
  }

  lemma {:induction false} ItemsWritten(s: string) returns (a: string)
    requires ParseItems1(s).Parsed?
    ensures s == a + "]" + ParseItems1(s).rest && WritesItems(a, ParseItems1(s).value)
    decreases |s|, 3
  {
    hide WritesItem;
    hide WritesItems;
    hide ParseItem;
    var first := ItemWritten(s);
    var it, rest := ParseItem(s).value, ParseItem(s).rest;
    if rest[0] == ',' {
      var later := ItemsWritten(rest[1..]);
      var p := ParseItems1(rest[1..]);
      NotEmptyItems(rest[1..]);
      assert ParseItems1(s) == Prepend([it], p);
      hide ParseItems1;
      a := first + ("," + later);
      assert rest == "," + rest[1..];
      ItemsJoin(first, it, later, p.value);
    } else {
      a := first;
      assert rest == "]" + rest[1..];
      OneItemWritten(first, it);
    }
  }

  lemma OneItemWritten(first: string, it: MiListItem)
    requires WritesItem(first, it)
    ensures WritesItems(first, [it])
  {}

  lemma ItemsJoin(first: string, it: MiListItem, later: string, items: seq<MiListItem>)
    requires WritesItem(first, it) && items != [] && WritesItems(later, items)
    ensures WritesItems(first + ("," + later), [it] + items)
  {
    var all := [it] + items;
    assert all[0] == it && all[1..] == items;
    assert WritesItem(first, all[0]) && WritesItems(later, all[1..]);
  }

  lemma NotEmptyItems(s: string)
    requires ParseItems1(s).Parsed?
    ensures ParseItems1(s).value != []
  {}

  // ---- Records ----

  /** No digits for no token; otherwise any digits that denote it, leading zeros included. */
  ghost predicate WritesToken(digits: string, token: Option<nat>) {
    && (forall i :: 0 <= i < |digits| ==> '0' <= digits[i] <= '9')
    && (if token.None? then digits == []
        else digits != [] && DecimalValue(digits) == token.value <= 0xFFFF_FFFF_FFFF_FFFF)
  }

  /** Nothing, or results behind a comma; a download status may give its progress as a tuple without a name. */
  ghost predicate WritesTail(s: string, download: bool, results: seq<MiResult>) {
    || (s == [] && results == [])
    || (exists body :: s == "," + body && results != [] && WritesResults(body, results))
    || (download && |results| == 1 && results[0].variable == "progress" && results[0].value.Tuple?
        && exists body :: s == "," + body && WritesValue(body, results[0].value))
  }

  /** A token, the mark of the kind of record, a class and results. */
  ghost predicate WritesClassified(
    s: string, token: Option<nat>, mark: string, cls: string, results: seq<MiResult>)
  {
    && Name(cls)
    && exists digits, tail :: s == digits + (mark + (cls + tail)) && WritesToken(digits, token)
                              && WritesTail(tail, mark == "+" && cls == "download", results)
  }

  ghost predicate WritesStream(s: string, mark: string, text: string) {
    exists body :: s == mark + body && WritesText(body, text)
  }

  /** The line is a way of writing the record. Only a result record keeps its token. */
  ghost predicate WritesRecord(s: string, r: MiRecord) {
    match r
    case ResultRecord(token, cls, results) => WritesClassified(s, token, "^", cls, results)
    case Exec(cls, results) => exists token :: WritesClassified(s, token, "*", cls, results)
    case Status(cls, results) => exists token :: WritesClassified(s, token, "+", cls, results)
    case Notify(cls, results) => exists token :: WritesClassified(s, token, "=", cls, results)
    case Console(text) => WritesStream(s, "~", text)
    case Target(text) => WritesStream(s, "@", text)
    case Log(text) => WritesStream(s, "&", text)
    case Prompt => s == "(gdb)" || s == "(gdb) "
  }

  lemma NameIff(s: string)
    ensures Name(s) <==> Identifier(s)
  {}

  lemma {:induction false} TailReads(s: string, mark: char, cls: string, results: seq<MiResult>)
    requires WritesTail(s, mark == '+' && cls == "download", results)
    ensures if s == [] then results == []
            else s[0] == ',' && Complete(ParseTail(mark, cls, s[1..])) == Ok(results)
  {
    hide ParseResults1;
    hide ParseValue;
    if body :| s == "," + body && results != [] && WritesResults(body, results) {
      ResultsRead(body, results, None, []);
      assert body + [] == body && s[1..] == body;
      assert body[0] != '{';
    } else if body :| mark == '+' && cls == "download" && |results| == 1 && results[0].variable == "progress"
                      && results[0].value.Tuple? && s == "," + body && WritesValue(body, results[0].value) {
      ValueReads(body, results[0].value, []);
      assert body + [] == body && s[1..] == body;
      assert body[0] == '{';
      assert results == [MiResult("progress", results[0].value)];
    }
  }

  lemma {:induction false} ClassifiedReads(
    s: string, token: Option<nat>, mark: char, cls: string, results: seq<MiResult>)
    requires IsClassPrefix(mark) && WritesClassified(s, token, [mark], cls, results)
    ensures ParseNumbered(s) == Ok(Classified(token, mark, cls, results))
  {
    hide WritesTail;
    hide ParseTail;
    hide ParseToken;
    var digits, tail :| s == digits + ([mark] + (cls + tail)) && WritesToken(digits, token)
                        && WritesTail(tail, [mark] == "+" && cls == "download", results);
    assert [mark] == "+" <==> mark == '+';
    TailReads(tail, mark, cls, results);
    NameIff(cls);
    ClassSplits(cls, tail);
    assert ([mark] + (cls + tail))[1..] == cls + tail;
    TokenReads(digits, token);
    NumberedParses(s, token, digits, [mark] + (cls + tail));
  }

  lemma {:induction false} TokenReads(digits: string, token: Option<nat>)
    requires WritesToken(digits, token)
    ensures (forall i :: 0 <= i < |digits| ==> IsDigit(digits[i])) && ParseToken(digits) == Ok(token)
  {}

  lemma {:induction false} NumberedParses(s: string, token: Option<nat>, digits: string, after: string)
    requires s == digits + after && (forall i :: 0 <= i < |digits| ==> IsDigit(digits[i]))
    requires ParseToken(digits) == Ok(token) && after != [] && !IsDigit(after[0])
    ensures ParseNumbered(s) == ParsePrefixed(token, after)
  {
    DigitsRun(digits, after);
    assert s[..|digits|] == digits && s[|digits|..] == after;
  }

  lemma {:induction false} StreamReads(s: string, mark: char, text: string)
    requires IsStreamPrefix(mark) && WritesStream(s, [mark], text)
    ensures ParseNumbered(s) == Ok(Stream(mark, text))
  {
    var body :| s == [mark] + body && WritesText(body, text);
    TextReads(body, text, []);
    assert body + [] == body && s[1..] == body;
    NumberedParses(s, None, [], s);
    hide ParseCString;
  }

  lemma {:induction false} TailWritten(mark: char, cls: string, s: string)
    requires Complete(ParseTail(mark, cls, s)).Ok?
    ensures WritesTail("," + s, mark == '+' && cls == "download", Complete(ParseTail(mark, cls, s)).value)
  {
    hide WritesResults;
    hide WritesValue;
    hide ParseResults1;
    if mark == '+' && cls == "download" && s != [] && s[0] == '{' {
      var a := ValueWritten(s);
      assert s == a;
      TupleAhead(s);
    } else {
      var a := ResultsWritten(s, None);
      assert s == a;
      NotEmptyResults(s, None);
    }
  }

  lemma TupleAhead(s: string)
    requires s != [] && s[0] == '{' && ParseValue(s).Parsed?
    ensures ParseValue(s).value.Tuple?
  {}

  lemma {:induction false} ClassifiedWritten(s: string, digits: string, token: Option<nat>, mark: char, x: string)
    requires IsClassPrefix(mark) && (token.Some? ==> token.value <= U64_MAX)
    requires WritesToken(digits, token) && s == digits + ([mark] + x) && ParseClassified(token, mark, x).Ok?
    ensures exists cls, results ::
              WritesClassified(s, token, [mark], cls, results)
              && ParseClassified(token, mark, x) == Ok(Classified(token, mark, cls, results))
  {
    hide ParseTail;
    hide WritesTail;
    hide WritesToken;
    var n := FirstIndex(x, ',');
    var cls, tail := x[..n], x[n..];
    assert x == cls + tail;
    NameIff(cls);
    var results := if n == |x| then [] else Complete(ParseTail(mark, cls, x[n + 1..])).value;
    assert [mark] == "+" <==> mark == '+';
    if n < |x| {
      TailWritten(mark, cls, x[n + 1..]);
      assert tail == "," + x[n + 1..];
    } else {
      NoTail(mark == '+' && cls == "download");
    }
    assert WritesClassified(s, token, [mark], cls, results);
  }

  lemma NoTail(download: bool)
    ensures WritesTail([], download, [])
  {}

  lemma {:induction false} TokenWritten(digits: string)
    requires (forall i :: 0 <= i < |digits| ==> IsDigit(digits[i])) && ParseToken(digits).Ok?
    ensures WritesToken(digits, ParseToken(digits).value)
  {}

  lemma {:induction false} NumberedWritten(s: string)
    requires ParseNumbered(s).Ok?
    ensures WritesRecord(s, ParseNumbered(s).value)
  {
    hide ParseToken;
    hide ParseClassified;
    hide ParseCString;
    hide WritesToken;
    hide WritesClassified;
    hide WritesText;
    hide WfRecord;
    hide DecimalValue;
    var n := DigitsLength(s);
    var digits, after := s[..n], s[n..];
    assert s == digits + after;
    TokenWritten(digits);
    var token := ParseToken(digits).value;
    var mark, x := after[0], after[1..];
    assert after == [mark] + x;
    if IsStreamPrefix(mark) {
      NoDigits(digits);
      assert s == after;
      var body := TextWritten(x);
      assert x == body;
      assert WritesStream(s, [mark], ParseCString(x).value);
    } else {
      ClassifiedWritten(s, digits, token, mark, x);
      var cls, results :| WritesClassified(s, token, [mark], cls, results)
                          && ParseClassified(token, mark, x) == Ok(Classified(token, mark, cls, results));
    }
  }

  lemma NoDigits(digits: string)
    requires (forall i :: 0 <= i < |digits| ==> IsDigit(digits[i])) && ParseToken(digits) == Ok(None)
    ensures digits == []
  {}

  lemma {:induction false} NumberedReads(s: string, r: MiRecord)
    requires WritesRecord(s, r) && !r.Prompt?
    ensures ParseNumbered(s) == Ok(r) && s != [] && s[0] != '('
  {
    hide ParseNumbered;
    hide WritesClassified;
    hide WritesStream;
    match r {
      case ResultRecord(token, cls, results) => ClassifiedLine(s, token, '^', cls, results);
      case Exec(cls, results) =>
        var token :| WritesClassified(s, token, "*", cls, results);
        ClassifiedLine(s, token, '*', cls, results);
      case Status(cls, results) =>
        var token :| WritesClassified(s, token, "+", cls, results);
        ClassifiedLine(s, token, '+', cls, results);
      case Notify(cls, results) =>
        var token :| WritesClassified(s, token, "=", cls, results);
        ClassifiedLine(s, token, '=', cls, results);
      case Console(text) => StreamLine(s, '~', text);
      case Target(text) => StreamLine(s, '@', text);
      case Log(text) => StreamLine(s, '&', text);
    }
  }

  lemma {:induction false} ClassifiedLine(
    s: string, token: Option<nat>, mark: char, cls: string, results: seq<MiResult>)
    requires IsClassPrefix(mark) && WritesClassified(s, token, [mark], cls, results)
    ensures ParseNumbered(s) == Ok(Classified(token, mark, cls, results)) && s != [] && s[0] != '('
  {
    ClassifiedReads(s, token, mark, cls, results);
    hide WritesTail;
    hide ParseNumbered;
    var digits, tail :| s == digits + ([mark] + (cls + tail)) && WritesToken(digits, token);
    assert s[0] == if digits == [] then mark else digits[0];
  }

  lemma {:induction false} StreamLine(s: string, mark: char, text: string)
    requires IsStreamPrefix(mark) && WritesStream(s, [mark], text)
    ensures ParseNumbered(s) == Ok(Stream(mark, text)) && s != [] && s[0] != '('
  {
    StreamReads(s, mark, text);
    hide WritesText;
    hide ParseNumbered;
  }

  /** A line is read as a record exactly when it is a way of writing it; a line that writes no record is refused. */
  lemma {:induction false} AcceptedIff(s: string, r: MiRecord)
    ensures ParseRecord(s) == Ok(r) <==> WritesRecord(s, r)
  {
    PromptIff(s);
    assert "(gdb)" + " " == "(gdb) ";
    if r.Prompt? {
      hide ParseRecord;
    } else {
      if WritesRecord(s, r) {
        NumberedReads(s, r);
        NotPrompt(s);
      }
      if ParseRecord(s) == Ok(r) {
        assert ParseRecord(s) == ParseNumbered(s);
        NumberedWritten(s);
      }
      hide ParseNumbered;
      hide WritesRecord;
    }
  }

  // ---- Two refusals with a code of their own ----

  /** A number that does not fit a token is refused as such, whatever follows it. */
  lemma {:induction false} TokenTooLarge(digits: string, after: string)
    requires digits != [] && (forall i :: 0 <= i < |digits| ==> IsDigit(digits[i]))
    requires DecimalValue(digits) > 0xFFFF_FFFF_FFFF_FFFF && (after == [] || !IsDigit(after[0]))
    ensures ParseRecord(digits + after) == Err(Failure(Debugger, MI_TOKEN_INVALID))
  {
    var s := digits + after;
    DigitsRun(digits, after);
    assert s[..|digits|] == digits && s[0] == digits[0];
    NotPrompt(s);
  }

  /** A stream record whose string is complete but not UTF-8 is refused as such. */
  lemma {:induction false} TextNotUtf8(us: seq<Unit>, mark: char)
    requires Units(us) && !Utf8.IsEncoding(UnitsMeaning(us)) && mark in {'~', '@', '&'}
    ensures ParseRecord([mark] + ("\"" + UnitsText(us) + "\"")) == Err(Failure(Debugger, MI_UTF8_INVALID))
  {
    var body := "\"" + UnitsText(us) + "\"";
    var s := [mark] + body;
    BodyReads(us, []);
    Utf8.ValidIff(UnitsMeaning(us));
    assert body[1..] == UnitsText(us) + "\"" + [] && body[0] == '"' && s[1..] == body;
    hide StringBody;
    hide UnitsText;
    hide UnitsMeaning;
    hide Utf8.Valid;
    NotPrompt(s);
    NumberedParses(s, None, [], s);
  }
}
