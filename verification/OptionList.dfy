/** `tokenize` of `importer.rs`: splitting a list of command line options, and its inverse. */
module OptionList {
  import opened Common

  // ---- What tokenising does ----

  /** The tokens completed so far, the one being read, the open quote, and whether a backslash has just been read. */
  datatype Scan = Scan(result: seq<string>, current: string, quote: Option<char>, escaped: bool)

  function Flush(result: seq<string>, current: string): seq<string> {
    if current == [] then result else result + [current]
  }

  function ScanChar(st: Scan, c: char): Scan {
    if st.escaped then st.(current := st.current + [c], escaped := false)
    else if c == '\\' && st.quote == Some('"') then st.(escaped := true)
    else if c == '\'' || c == '"' then
      if st.quote == Some(c) then st.(quote := None)
      else if st.quote.None? then st.(quote := Some(c))
      else st.(current := st.current + [c])
    else if IsWhitespace(c) && st.quote.None? then st.(result := Flush(st.result, st.current), current := [])
    else st.(current := st.current + [c])
  }

  function ScanAll(st: Scan, s: string): Scan {
    if s == [] then st else ScanChar(ScanAll(st, s[..|s| - 1]), s[|s| - 1])
  }

  function Start(): Scan {
    Scan([], [], None, false)
  }

  function Finish(st: Scan): Option<seq<string>> {
    if st.quote.Some? || st.escaped then None else Some(Flush(st.result, st.current))
  }

  /** The tokens, or nothing when a quote or an escape is left open. */
  function Tokens(s: string): Option<seq<string>> {
    Finish(ScanAll(Start(), s))
  }

  method Tokenize(value: string) returns (tokens: Option<seq<string>>)
    ensures tokens == Tokens(value)
  {
    var result, current := [], "";
    var quote: Option<char> := None;
    var escaped := false;
    for i := 0 to |value|
      invariant Scan(result, current, quote, escaped) == ScanAll(Start(), value[..i])
    {
      assert value[..i + 1][..i] == value[..i];
      var character := value[i];
      if escaped {
        current := current + [character];
        escaped := false;
      } else if character == '\\' && quote == Some('"') {
        escaped := true;
      } else if character == '\'' || character == '"' {
        if quote == Some(character) {
          quote := None;
        } else if quote.None? {
          quote := Some(character);
        } else {
          current := current + [character];
        }
      } else if IsWhitespace(character) && quote.None? {
        if current != [] {
          result := result + [current];
          current := "";
        }
      } else {
        current := current + [character];
      }
    }
    assert value[..|value|] == value;
    if quote.Some? || escaped {
      return None;
    }
    if current != [] {
      result := result + [current];
    }
    return Some(result);
  }

  lemma {:induction false} ScanAppend(st: Scan, a: string, b: string)
    ensures ScanAll(st, a + b) == ScanAll(ScanAll(st, a), b)
    decreases |b|
  {
    if b == [] {
      assert a + b == a;
    } else {
      var n := |b| - 1;
      assert (a + b)[..|a + b| - 1] == a + b[..n];
      ScanAppend(st, a, b[..n]);
    }
  }

  lemma {:induction false} ScanSingle(st: Scan, c: char)
    ensures ScanAll(st, [c]) == ScanChar(st, c)
  {
    assert [c][..0] == [];
  }

  predicate NoneEmpty(tokens: seq<string>) {
    forall i :: 0 <= i < |tokens| ==> tokens[i] != []
  }

  /** No token is ever empty. */
  lemma {:induction false} TokensNotEmpty(s: string)
    ensures NoneEmpty(ScanAll(Start(), s).result)
    ensures Tokens(s).Some? ==> NoneEmpty(Tokens(s).value)
    decreases |s|
  {
    if s != [] {
      TokensNotEmpty(s[..|s| - 1]);
    }
  }

  // ---- Writing a list of options ----

  /** One character between double quotes. */
  function EscapeChar(c: char): string {
    if c == '\\' || c == '"' then ['\\', c] else [c]
  }

  function Escape(word: string): string {
    if word == [] then [] else Escape(word[..|word| - 1]) + EscapeChar(word[|word| - 1])
  }

  function Quoted(word: string): string {
    ['"'] + (Escape(word) + ['"'])
  }

  /** Quoted words with white space between them. */
  function Line(words: seq<string>, gaps: seq<string>): string
    requires |gaps| == |words|
  {
    if words == [] then []
    else
      var n := |words| - 1;
      Line(words[..n], gaps[..n]) + ((if n == 0 then [] else gaps[n]) + Quoted(words[n]))
  }

  predicate Blank(s: string) {
    s != [] && forall i :: 0 <= i < |s| ==> IsWhitespace(s[i])
  }

  function NonEmpty(words: seq<string>): seq<string> {
    if words == [] then [] else Flush(NonEmpty(words[..|words| - 1]), words[|words| - 1])
  }

  lemma {:induction false} ScanEscapedChar(st: Scan, c: char)
    requires st.quote == Some('"') && !st.escaped
    ensures ScanAll(st, EscapeChar(c)) == st.(current := st.current + [c])
  {
    var e := EscapeChar(c);
    ScanSingle(st, e[0]);
    if |e| == 2 {
      assert e == [e[0]] + [e[1]];
      ScanAppend(st, [e[0]], [e[1]]);
      ScanSingle(st.(escaped := true), c);
    }
  }

  lemma {:induction false} ScanEscaped(st: Scan, word: string)
    requires st.quote == Some('"') && !st.escaped
    ensures ScanAll(st, Escape(word)) == st.(current := st.current + word)
    decreases |word|
  {
    if word == [] {
      AppendEmpty(st.current);
    } else {
      hide ScanAll;
      hide EscapeChar;
      var n := |word| - 1;
      ScanEscaped(st, word[..n]);
      ScanAppend(st, Escape(word[..n]), EscapeChar(word[n]));
      ScanEscapedChar(st.(current := st.current + word[..n]), word[n]);
      AppendAssociates(st.current, word[..n], [word[n]]);
      assert word[..n] + [word[n]] == word;
    }
  }

  lemma {:induction false} ScanQuoted(st: Scan, word: string)
    requires st.quote.None? && !st.escaped
    ensures ScanAll(st, Quoted(word)) == st.(current := st.current + word)
  {
    var open := st.(quote := Some('"'));
    ScanAppend(st, ['"'], Escape(word) + ['"']);
    ScanSingle(st, '"');
    ScanAppend(open, Escape(word), ['"']);
    ScanEscaped(open, word);
    ScanSingle(open.(current := st.current + word), '"');
  }

  lemma {:induction false} ScanBlank(st: Scan, gap: string)
    requires st.quote.None? && !st.escaped && Blank(gap)
    ensures ScanAll(st, gap) == st.(result := Flush(st.result, st.current), current := [])
    decreases |gap|
  {
    if |gap| == 1 {
      ScanSingle(st, gap[0]);
      assert gap == [gap[0]];
    } else {
      ScanBlank(st, gap[..|gap| - 1]);
    }
  }

  /** A gap and a quoted word: what came before is complete, and the word is the one being read. */
  lemma {:induction false} ScanNext(st: Scan, gap: string, word: string)
    requires st.quote.None? && !st.escaped && Blank(gap)
    ensures ScanAll(st, gap + Quoted(word)) == Scan(Flush(st.result, st.current), word, None, false)
  {
    ScanAppend(st, gap, Quoted(word));
    ScanBlank(st, gap);
    ScanQuoted(Scan(Flush(st.result, st.current), [], None, false), word);
    assert [] + word == word;
  }

  lemma {:induction false} ScanLine(words: seq<string>, gaps: seq<string>)
    requires |gaps| == |words| && forall i :: 0 < i < |gaps| ==> Blank(gaps[i])
    ensures var st := ScanAll(Start(), Line(words, gaps));
            st.quote.None? && !st.escaped && Flush(st.result, st.current) == NonEmpty(words)
    decreases |words|
  {
    if words != [] {
      var n := |words| - 1;
      var before, last := Line(words[..n], gaps[..n]), words[n];
      ScanLine(words[..n], gaps[..n]);
      hide Quoted;
      if n == 0 {
        assert before + ([] + Quoted(last)) == Quoted(last);
        ScanQuoted(Start(), last);
        assert [] + last == last;
      } else {
        ScanAppend(Start(), before, gaps[n] + Quoted(last));
        ScanNext(ScanAll(Start(), before), gaps[n], last);
      }
    }
  }

  lemma {:induction false} NonEmptyIdentityIff(words: seq<string>)
    ensures |NonEmpty(words)| <= |words|
    ensures NonEmpty(words) == words <==> NoneEmpty(words)
    decreases |words|
  {
    if words != [] {
      var n := |words| - 1;
      NonEmptyIdentityIff(words[..n]);
      assert words == words[..n] + [words[n]];
      if words[n] != [] {
        assert NonEmpty(words)[..|NonEmpty(words[..n])|] == NonEmpty(words[..n]);
      }
    }
  }

  /** Any words, quoted and separated by any white space, are read back as they are, except that empty ones vanish: so
      exactly the given list if and only if none is empty. */
  lemma {:induction false} QuotingInverts(words: seq<string>, gaps: seq<string>)
    requires |gaps| == |words| && forall i :: 0 < i < |gaps| ==> Blank(gaps[i])
    ensures Tokens(Line(words, gaps)) == Some(NonEmpty(words))
    ensures Tokens(Line(words, gaps)) == Some(words) <==> NoneEmpty(words)
  {
    ScanLine(words, gaps);
    NonEmptyIdentityIff(words);
  }

  // ---- Words in any writing ----

  /** A stretch of a word: without quotes, where a backslash is an ordinary character, or between quotes of either
      kind. */
  datatype Piece = Bare(text: string) | Single(text: string) | Double(text: string)

  predicate Wf(p: Piece) {
    match p
    case Bare(text) => forall i :: 0 <= i < |text| ==> !IsWhitespace(text[i]) && text[i] != '\'' && text[i] != '"'
    case Single(text) => '\'' !in text
    case Double(_) => true
  }

  predicate AllWf(word: seq<Piece>) {
    forall i :: 0 <= i < |word| ==> Wf(word[i])
  }

  function Written(p: Piece): string {
    match p
    case Bare(text) => text
    case Single(text) => "'" + text + "'"
    case Double(text) => Quoted(text)
  }

  function WrittenWord(word: seq<Piece>): string {
    if word == [] then [] else WrittenWord(word[..|word| - 1]) + Written(word[|word| - 1])
  }

  /** The word without its quotes. */
  function Meaning(word: seq<Piece>): string {
    if word == [] then [] else Meaning(word[..|word| - 1]) + word[|word| - 1].text
  }

  function Meanings(words: seq<seq<Piece>>): (r: seq<string>)
    ensures |r| == |words| && forall i :: 0 <= i < |words| ==> r[i] == Meaning(words[i])
  {
    seq(|words|, i requires 0 <= i < |words| => Meaning(words[i]))
  }

  /** Words with white space before each but the first. */
  function WrittenLine(words: seq<seq<Piece>>, gaps: seq<string>): string
    requires |gaps| == |words|
  {
    if words == [] then []
    else
      var n := |words| - 1;
      WrittenLine(words[..n], gaps[..n]) + ((if n == 0 then [] else gaps[n]) + WrittenWord(words[n]))
  }

  /** Characters that only extend the word being read. */
  lemma {:induction false} ScanOrdinary(st: Scan, text: string)
    requires !st.escaped && (st.quote.None? || st.quote == Some('\''))
    requires if st.quote.None? then Wf(Bare(text)) else Wf(Single(text))
    ensures ScanAll(st, text) == st.(current := st.current + text)
    decreases |text|
  {
    if text == [] {
      AppendEmpty(st.current);
    } else {
      var n := |text| - 1;
      ScanOrdinary(st, text[..n]);
      AppendAssociates(st.current, text[..n], [text[n]]);
      assert text[..n] + [text[n]] == text;
    }
  }

  lemma {:induction false} ScanPiece(st: Scan, p: Piece)
    requires st.quote.None? && !st.escaped && Wf(p)
    ensures ScanAll(st, Written(p)) == st.(current := st.current + p.text)
  {
    match p {
      case Bare(text) => ScanOrdinary(st, text);
      case Single(text) =>
        var open := st.(quote := Some('\''));
        ScanAppend(st, "'" + text, "'");
        ScanAppend(st, "'", text);
        ScanSingle(st, '\'');
        ScanOrdinary(open, text);
        ScanSingle(open.(current := st.current + text), '\'');
      case Double(text) => ScanQuoted(st, text);
    }
  }

  lemma {:induction false} ScanWord(st: Scan, word: seq<Piece>)
    requires st.quote.None? && !st.escaped && AllWf(word)
    ensures ScanAll(st, WrittenWord(word)) == st.(current := st.current + Meaning(word))
    decreases |word|
  {
    if word == [] {
      AppendEmpty(st.current);
    } else {
      hide ScanAll;
      hide Written;
      hide Wf;
      var n := |word| - 1;
      ScanWord(st, word[..n]);
      ScanAppend(st, WrittenWord(word[..n]), Written(word[n]));
      ScanPiece(st.(current := st.current + Meaning(word[..n])), word[n]);
      AppendAssociates(st.current, Meaning(word[..n]), word[n].text);
    }
  }

  lemma WrittenLineStep(words: seq<seq<Piece>>, gaps: seq<string>)
    requires |gaps| == |words| && words != []
    ensures var n := |words| - 1;
            WrittenLine(words, gaps) ==
            WrittenLine(words[..n], gaps[..n]) + ((if n == 0 then [] else gaps[n]) + WrittenWord(words[n]))
  {}

  lemma {:induction false} MeaningsStep(words: seq<seq<Piece>>)
    requires words != []
    ensures var n := |words| - 1;
            NonEmpty(Meanings(words)) == Flush(NonEmpty(Meanings(words[..n])), Meaning(words[n]))
  {
    var n := |words| - 1;
    assert Meanings(words)[..n] == Meanings(words[..n]);
  }

  /** A gap and a word: what came before is complete, and the word is the one being read. */
  lemma {:induction false} ScanNextWord(st: Scan, gap: string, word: seq<Piece>)
    requires st.quote.None? && !st.escaped && Blank(gap) && AllWf(word)
    ensures ScanAll(st, gap + WrittenWord(word)) == Scan(Flush(st.result, st.current), Meaning(word), None, false)
  {
    hide WrittenWord;
    hide Meaning;
    hide AllWf;
    ScanAppend(st, gap, WrittenWord(word));
    ScanBlank(st, gap);
    ScanWord(Scan(Flush(st.result, st.current), [], None, false), word);
    assert [] + Meaning(word) == Meaning(word);
  }

  lemma {:induction false} ScanFirstWord(word: seq<Piece>)
    requires AllWf(word)
    ensures ScanAll(Start(), WrittenWord(word)) == Scan([], Meaning(word), None, false)
  {
    ScanWord(Start(), word);
    assert [] + Meaning(word) == Meaning(word);
  }

  /** Nothing is open at the end, and the words so far are there. */
  predicate Reads(st: Scan, words: seq<seq<Piece>>) {
    st.quote.None? && !st.escaped && Flush(st.result, st.current) == NonEmpty(Meanings(words))
  }

  lemma {:induction false} ScanWrittenLine(words: seq<seq<Piece>>, gaps: seq<string>)
    requires |gaps| == |words| && forall i :: 0 < i < |gaps| ==> Blank(gaps[i])
    requires forall i :: 0 <= i < |words| ==> AllWf(words[i])
    ensures Reads(ScanAll(Start(), WrittenLine(words, gaps)), words)
    decreases |words|
  {
    hide WrittenWord;
    hide WrittenLine;
    hide Meaning;
    hide AllWf;
    hide Blank;
    hide NonEmpty;
    if words == [] {
      ScanNothing(gaps);
    } else {
      hide ScanAll;
      var n := |words| - 1;
      var before, last := WrittenLine(words[..n], gaps[..n]), words[n];
      ScanWrittenLine(words[..n], gaps[..n]);
      WrittenLineStep(words, gaps);
      MeaningsStep(words);
      if n == 0 {
        assert words[..n] == [] && gaps[..n] == [];
        OneWordLine(last);
        ScanFirstWord(last);
        NothingMeant();
      } else {
        ScanAppend(Start(), before, gaps[n] + WrittenWord(last));
        ScanNextWord(ScanAll(Start(), before), gaps[n], last);
      }
    }
  }

  lemma OneWordLine(word: seq<Piece>)
    ensures WrittenLine([], []) + ([] + WrittenWord(word)) == WrittenWord(word)
  {}

  lemma NothingMeant()
    ensures NonEmpty(Meanings([])) == []
  {}

  lemma {:induction false} ScanNothing(gaps: seq<string>)
    requires gaps == []
    ensures Reads(ScanAll(Start(), WrittenLine([], gaps)), [])
  {}

  /** Words written in any mixture of bare and quoted pieces are read back as what they mean, and those that mean the
      empty word vanish. */
  lemma {:induction false} AnyWritingInverts(words: seq<seq<Piece>>, gaps: seq<string>)
    requires |gaps| == |words| && forall i :: 0 < i < |gaps| ==> Blank(gaps[i])
    requires forall i :: 0 <= i < |words| ==> AllWf(words[i])
    ensures Tokens(WrittenLine(words, gaps)) == Some(NonEmpty(Meanings(words)))
  {
    ScanWrittenLine(words, gaps);
  }

  /** A quote of either kind, or a backslash between double quotes, that is left open refuses the list. */
  lemma {:induction false} OpenEndRefused(words: seq<seq<Piece>>, gaps: seq<string>, text: string)
    requires |gaps| == |words| && forall i :: 0 < i < |gaps| ==> Blank(gaps[i])
    requires forall i :: 0 <= i < |words| ==> AllWf(words[i])
    ensures Tokens(WrittenLine(words, gaps) + ("\"" + Escape(text))) == None
    ensures Tokens(WrittenLine(words, gaps) + ("\"" + Escape(text) + "\\")) == None
    ensures '\'' !in text ==> Tokens(WrittenLine(words, gaps) + ("'" + text)) == None
  {
    var line := WrittenLine(words, gaps);
    ScanWrittenLine(words, gaps);
    hide WrittenLine;
    var st := ScanAll(Start(), line);
    var double, single := st.(quote := Some('"')), st.(quote := Some('\''));
    ScanSingle(st, '"');
    ScanSingle(st, '\'');
    ScanAppend(Start(), line, "\"" + Escape(text));
    ScanAppend(st, "\"", Escape(text));
    ScanEscaped(double, text);
    ScanAppend(Start(), line, "\"" + Escape(text) + "\\");
    ScanAppend(st, "\"" + Escape(text), "\\");
    ScanSingle(double.(current := st.current + text), '\\');
    if '\'' !in text {
      ScanAppend(Start(), line, "'" + text);
      ScanAppend(st, "'", text);
      ScanOrdinary(single, text);
    }
  }

  /** Between double quotes a backslash makes any next character an ordinary one. */
  lemma {:induction false} EscapeIsLiteral(c: char)
    ensures Tokens("\"" + "\\" + [c] + "\"") == Some([[c]])
  {
    ScanAppend(Start(), "\"" + "\\" + [c], "\"");
    ScanAppend(Start(), "\"" + "\\", [c]);
    ScanAppend(Start(), "\"", "\\");
    ScanSingle(Start(), '"');
    ScanSingle(Start().(quote := Some('"')), '\\');
    ScanSingle(Start().(quote := Some('"'), escaped := true), c);
    assert [] + [c] == [c] && [] + [[c]] == [[c]];
    ScanSingle(Scan([], [c], Some('"'), false), '"');
  }

  /** Printable characters of ASCII other than blanks and quotes. */
  predicate PlainOption(word: string) {
    word != [] && forall i :: 0 <= i < |word| ==> '!' <= word[i] <= '~' && word[i] != '\'' && word[i] != '"'
  }

  /** The words with one blank between them. */
  function Joined(words: seq<string>): string {
    if words == [] then []
    else if |words| == 1 then words[0]
    else Joined(words[..|words| - 1]) + " " + words[|words| - 1]
  }

  /** A list of plain options, such as `-O2 -g`, is read as these options. */
  lemma {:induction false} PlainOptionsKept(words: seq<string>)
    requires forall i :: 0 <= i < |words| ==> PlainOption(words[i])
    ensures Tokens(Joined(words)) == Some(words)
  {
    hide PlainOption;
    hide Tokens;
    hide Joined;
    hide Meaning;
    hide AllWf;
    hide NonEmpty;
    hide WrittenLine;
    hide Blank;
    var bare := seq(|words|, i requires 0 <= i < |words| => [Bare(words[i])]);
    var gaps := seq(|words|, i => " ");
    forall i | 0 <= i < |words|
      ensures AllWf(bare[i]) && Meaning(bare[i]) == words[i] && words[i] != []
    {
      PlainPiece(words[i]);
    }
    OneBlank();
    assert Meanings(bare) == words;
    AnyWritingInverts(bare, gaps);
    NonEmptyIdentityIff(words);
    JoinedIsWritten(words, bare, gaps);
  }

  lemma OneBlank()
    ensures Blank(" ")
  {}

  lemma {:induction false} PlainPiece(word: string)
    requires PlainOption(word)
    ensures AllWf([Bare(word)]) && Meaning([Bare(word)]) == word && word != []
  {
    assert [Bare(word)][..0] == [];
    assert [] + word == word;
  }

  lemma {:induction false} JoinedIsWritten(words: seq<string>, bare: seq<seq<Piece>>, gaps: seq<string>)
    requires |bare| == |gaps| == |words|
    requires forall i :: 0 <= i < |words| ==> bare[i] == [Bare(words[i])] && gaps[i] == " "
    ensures WrittenLine(bare, gaps) == Joined(words)
    decreases |words|
  {
    if words != [] {
      var n := |words| - 1;
      JoinedIsWritten(words[..n], bare[..n], gaps[..n]);
      WrittenLineStep(bare, gaps);
      PlainWritten(words[n]);
      hide WrittenLine;
      hide WrittenWord;
      if n == 0 {
        assert Joined(words[..0]) + ([] + words[0]) == words[0];
      } else {
        assert Joined(words[..n]) + (" " + words[n]) == Joined(words[..n]) + " " + words[n];
      }
    }
  }

  lemma {:induction false} PlainWritten(word: string)
    ensures WrittenWord([Bare(word)]) == word
  {
    assert [Bare(word)][..0] == [];
    assert [] + word == word;
  }
}
