/** Reading the dependency files of the compiler: `parse_make_words` and the surrounding text handling of `is_current`
    in `pipeline.rs`, against the rules that GCC writes. */
module MakeRules {
  import opened Common

  // ---- Words ----

  /** The words completed so far, the word being read, and whether a backslash has just been read. */
  datatype Scan = Scan(words: seq<string>, word: string, escaped: bool)

  function Flush(words: seq<string>, word: string): seq<string> {
    if word == [] then words else words + [word]
  }

  function ScanChar(st: Scan, c: char): Scan {
    if st.escaped then Scan(st.words, st.word + [c], false)
    else if c == '\\' then st.(escaped := true)
    else if IsWhitespace(c) then Scan(Flush(st.words, st.word), [], false)
    else Scan(st.words, st.word + [c], false)
  }

  function ScanAll(st: Scan, s: string): Scan {
    if s == [] then st else ScanChar(ScanAll(st, s[..|s| - 1]), s[|s| - 1])
  }

  function MakeWords(s: string): seq<string> {
    var st := ScanAll(Scan([], [], false), s);
    Flush(st.words, st.word)
  }

  method ParseMakeWords(value: string) returns (words: seq<string>)
    ensures words == MakeWords(value)
  {
    words := [];
    var word := "";
    var escaped := false;
    for i := 0 to |value|
      invariant Scan(words, word, escaped) == ScanAll(Scan([], [], false), value[..i])
    {
      assert value[..i + 1][..i] == value[..i];
      var character := value[i];
      if escaped {
        word := word + [character];
        escaped := false;
      } else if character == '\\' {
        escaped := true;
      } else if IsWhitespace(character) {
        if word != [] {
          words := words + [word];
          word := "";
        }
      } else {
        word := word + [character];
      }
    }
    assert value[..|value|] == value;
    if word != [] {
      words := words + [word];
    }
  }

  lemma {:induction false} ScanAppend(st: Scan, a: string, b: string)
    ensures ScanAll(st, a + b) == ScanAll(ScanAll(st, a), b)
  {
    if b == [] {
      assert a + b == a;
    } else {
      var n := |b| - 1;
      assert (a + b)[..|a + b| - 1] == a + b[..n];
      ScanAppend(st, a, b[..n]);
    }
  }

  // ---- Rules as GCC writes them ----

  /** GCC's quoting of one character of a file name. */
  function EscapeChar(c: char): string {
    if c == ' ' || c == '\t' || c == '#' then ['\\', c] else if c == '$' then ['$', '$'] else [c]
  }

  function Escape(word: string): string {
    if word == [] then [] else Escape(word[..|word| - 1]) + EscapeChar(word[|word| - 1])
  }

  /** What the parser makes of an escaped word: a dollar sign stays doubled. */
  function Doubled(word: string): string {
    if word == [] then []
    else Doubled(word[..|word| - 1]) + DoubledChar(word[|word| - 1])
  }

  /** File names that GCC's quoting is meant for: no backslash, and no white space but blanks and tabs. */
  predicate Plain(word: string) {
    word != [] && forall i :: 0 <= i < |word| ==>
      word[i] != '\\' && (IsWhitespace(word[i]) ==> word[i] == ' ' || word[i] == '\t')
  }

  lemma {:induction false} DoubledIdentityIff(word: string)
    ensures |Doubled(word)| >= |word|
    ensures Doubled(word) == word <==> '$' !in word
  {
    if word != [] {
      var n := |word| - 1;
      var init, last := word[..n], word[n];
      DoubledIdentityIff(init);
      assert word == init + [last];
      if last != '$' {
        assert Doubled(word)[..|Doubled(init)|] == Doubled(init);
        assert Doubled(word) == word ==> Doubled(init) == init;
      }
    }
  }

  lemma {:induction false} ScanSingle(st: Scan, c: char)
    ensures ScanAll(st, [c]) == ScanChar(st, c)
  {
    assert [c][..0] == [];
  }

  /** The parser's reading of an escaped character. */
  function DoubledChar(c: char): string {
    if c == '$' then ['$', '$'] else [c]
  }

  lemma {:induction false} ScanEscapedChar(st: Scan, c: char)
    requires !st.escaped && c != '\\' && (IsWhitespace(c) ==> c == ' ' || c == '\t')
    ensures ScanAll(st, EscapeChar(c)) == st.(word := st.word + DoubledChar(c))
  {
    var e := EscapeChar(c);
    ScanSingle(st, e[0]);
    if |e| == 2 {
      var half := ScanChar(st, e[0]);
      assert e == [e[0]] + [e[1]];
      ScanAppend(st, [e[0]], [e[1]]);
      ScanSingle(half, e[1]);
      assert (st.word + [c]) + [c] == st.word + [c, c];
    }
  }

  lemma {:induction false} ScanEscaped(st: Scan, word: string)
    requires !st.escaped && forall i :: 0 <= i < |word| ==>
      word[i] != '\\' && (IsWhitespace(word[i]) ==> word[i] == ' ' || word[i] == '\t')
    ensures ScanAll(st, Escape(word)) == st.(word := st.word + Doubled(word))
  {
    if word == [] {
      AppendEmpty(st.word);
    } else {
      var n := |word| - 1;
      var half := st.(word := st.word + Doubled(word[..n]));
      ScanEscaped(st, word[..n]);
      ScanAppend(st, Escape(word[..n]), EscapeChar(word[n]));
      ScanEscapedChar(half, word[n]);
      AppendAssociates(st.word, Doubled(word[..n]), DoubledChar(word[n]));
    }
  }

  /** What separates two names in a rule: a blank, or a blank, an escaped newline and another blank. */
  datatype Separator = Blank | Continued

  function SeparatorText(sep: Separator): string {
    if sep == Blank then [' '] else [' ', '\\', '\n', ' ']
  }

  /** A separator once escaped newlines have become blanks. */
  function Gap(sep: Separator): string {
    if sep == Blank then [' '] else [' ', ' ', ' ']
  }

  function Names(names: seq<string>, seps: seq<Separator>): string
    requires |seps| == |names|
  {
    if names == [] then []
    else
      var n := |names| - 1;
      Names(names[..n], seps[..n]) + (SeparatorText(seps[n]) + Escape(names[n]))
  }

  /** What follows the names: the end of the file, an empty line and anything, or (-MP) a target of its own. */
  datatype Ending = EndOfFile | EmptyLine(more: string) | OtherTarget(name: string, more: string)

  function EndingText(ending: Ending): string {
    match ending
    case EndOfFile => ['\n']
    case EmptyLine(more) => ['\n', '\n'] + more
    case OtherTarget(name, more) => ['\n'] + (Escape(name) + ([':', '\n'] + more))
  }

  function RuleText(target: string, names: seq<string>, seps: seq<Separator>, ending: Ending): string
    requires |seps| == |names|
  {
    target + ([':'] + (Names(names, seps) + EndingText(ending)))
  }

  // ---- Reading a rule ----

  /** `replace("\\\n", " ")`. */
  function Unfold(s: string): string {
    if s == [] then [] else if Folds(s) then [' '] + Unfold(s[2..]) else [s[0]] + Unfold(s[1..])
  }

  predicate Folds(s: string) {
    |s| >= 2 && s[0] == '\\' && s[1] == '\n'
  }

  /** The text before the first empty line. */
  function Paragraph(s: string): string {
    if s == [] || (|s| >= 2 && s[0] == '\n' && s[1] == '\n') then [] else [s[0]] + Paragraph(s[1..])
  }

  predicate EndsInColon(word: string) {
    word != [] && word[|word| - 1] == ':'
  }

  /** The words before the first one that ends in a colon. */
  function BeforeTarget(words: seq<string>): seq<string> {
    if words == [] || EndsInColon(words[0]) then []
    else [words[0]] + BeforeTarget(words[1..])
  }

  /** The inputs that a dependency file names, as `is_current` reads it. */
  function ListedInputs(text: string): seq<string> {
    var rule := Paragraph(Unfold(text));
    var colon := FirstIndex(rule, ':');
    if colon == |rule| then [] else BeforeTarget(MakeWords(rule[colon + 1..]))
  }

  lemma {:induction false} UnfoldAppend(a: string, b: string)
    requires a == [] || a[|a| - 1] != '\\'
    ensures Unfold(a + b) == Unfold(a) + Unfold(b)
    decreases |a|
  {
    if a == [] {
      assert a + b == b;
    } else if Folds(a) {
      UnfoldAppend(a[2..], b);
      assert (a + b)[2..] == a[2..] + b;
      AppendAssociates([' '], Unfold(a[2..]), Unfold(b));
    } else {
      UnfoldAppend(a[1..], b);
      assert (a + b)[1..] == a[1..] + b;
      AppendAssociates([a[0]], Unfold(a[1..]), Unfold(b));
    }
  }

  lemma {:induction false} UnfoldNothing(s: string)
    requires forall i :: 0 <= i < |s| ==> s[i] != '\n'
    ensures Unfold(s) == s
  {
    if s != [] {
      UnfoldNothing(s[1..]);
    }
  }

  lemma {:induction false} ParagraphAppend(a: string, b: string)
    requires forall i :: 0 <= i < |a| ==> a[i] != '\n'
    ensures Paragraph(a + b) == a + Paragraph(b)
  {
    if a == [] {
      assert a + b == b;
    } else {
      assert (a + b)[1..] == a[1..] + b;
      ParagraphAppend(a[1..], b);
    }
  }

  lemma {:induction false} EscapeKeepsLine(word: string)
    requires Plain(word)
    ensures Escape(word) != [] && forall i :: 0 <= i < |Escape(word)| ==> Escape(word)[i] != '\n'
    ensures Escape(word)[|Escape(word)| - 1] == word[|word| - 1]
  {
    var n := |word| - 1;
    if n > 0 {
      EscapeKeepsLine(word[..n]);
    }
  }

  /** The names of a rule after the escaped newlines are gone. */
  function Unfolded(names: seq<string>, seps: seq<Separator>): string
    requires |seps| == |names|
  {
    if names == [] then []
    else
      var n := |names| - 1;
      Unfolded(names[..n], seps[..n]) + (Gap(seps[n]) + Escape(names[n]))
  }

  predicate AllPlain(names: seq<string>) {
    forall i :: 0 <= i < |names| ==> Plain(names[i])
  }

  function DoubledAll(names: seq<string>): (r: seq<string>)
    ensures |r| == |names|
  {
    if names == [] then [] else DoubledAll(names[..|names| - 1]) + [Doubled(names[|names| - 1])]
  }

  lemma {:induction false} DoubledAllAt(names: seq<string>, i: nat)
    requires i < |names|
    ensures DoubledAll(names)[i] == Doubled(names[i])
  {
    if i < |names| - 1 {
      DoubledAllAt(names[..|names| - 1], i);
    }
  }

  predicate OneLine(s: string) {
    forall i :: 0 <= i < |s| ==> s[i] != '\n'
  }

  predicate Cuttable(s: string) {
    s == [] || s[|s| - 1] != '\\'
  }

  lemma {:induction false} UnfoldSingle(c: char)
    ensures Unfold([c]) == [c]
  {
    assert [c][1..] == [];
  }

  lemma {:induction false} SeparatorUnfolds(sep: Separator)
    ensures Unfold(SeparatorText(sep)) == Gap(sep)
    ensures Cuttable(SeparatorText(sep)) && OneLine(Gap(sep))
  {
    UnfoldSingle(' ');
    if sep == Continued {
      var s := SeparatorText(sep);
      assert s == [' '] + (['\\', '\n'] + [' ']);
      UnfoldAppend([' '], ['\\', '\n'] + [' ']);
      UnfoldAppend(['\\', '\n'], [' ']);
      var fold := ['\\', '\n'];
      assert fold[2..] == [] && Unfold(fold) == [' '] + Unfold([]);
    }
  }

  lemma {:induction false} NamesUnfoldStep(before: string, sep: string, word: string)
    requires Cuttable(before) && Cuttable(sep) && Plain(word)
    ensures Unfold(before + (sep + Escape(word))) == Unfold(before) + (Unfold(sep) + Escape(word))
    ensures Cuttable(before + (sep + Escape(word)))
  {
    EscapeKeepsLine(word);
    UnfoldAppend(before, sep + Escape(word));
    UnfoldAppend(sep, Escape(word));
    UnfoldNothing(Escape(word));
  }

  lemma {:induction false} NamesUnfold(names: seq<string>, seps: seq<Separator>)
    requires |seps| == |names| && AllPlain(names)
    ensures Unfold(Names(names, seps)) == Unfolded(names, seps)
    ensures Cuttable(Names(names, seps))
    decreases |names|
  {
    if names != [] {
      var n := |names| - 1;
      NamesUnfold(names[..n], seps[..n]);
      SeparatorUnfolds(seps[n]);
      NamesUnfoldStep(Names(names[..n], seps[..n]), SeparatorText(seps[n]), names[n]);
    }
  }

  lemma {:induction false} UnfoldedOneLine(names: seq<string>, seps: seq<Separator>)
    requires |seps| == |names| && AllPlain(names)
    ensures OneLine(Unfolded(names, seps))
    decreases |names|
  {
    if names != [] {
      var n := |names| - 1;
      UnfoldedOneLine(names[..n], seps[..n]);
      EscapeKeepsLine(names[n]);
      SeparatorUnfolds(seps[n]);
    }
  }

  predicate Spaces(s: string) {
    s != [] && forall i :: 0 <= i < |s| ==> IsWhitespace(s[i]) && s[i] != '\\'
  }

  lemma {:induction false} ScanGap(st: Scan, gap: string)
    requires !st.escaped && Spaces(gap)
    ensures ScanAll(st, gap) == Scan(Flush(st.words, st.word), [], false)
  {
    var n := |gap| - 1;
    if n == 0 {
      assert gap[..0] == [];
    } else {
      ScanGap(st, gap[..n]);
    }
  }

  /** A gap and a name: the word before the gap is complete and the name is the one being read. */
  lemma {:induction false} ScanNext(st: Scan, gap: string, word: string)
    requires !st.escaped && Spaces(gap) && Plain(word)
    ensures ScanAll(st, gap + Escape(word)) == Scan(Flush(st.words, st.word), Doubled(word), false)
  {
    var flushed := Scan(Flush(st.words, st.word), [], false);
    ScanAppend(st, gap, Escape(word));
    ScanGap(st, gap);
    ScanEscaped(flushed, word);
    assert [] + Doubled(word) == Doubled(word);
  }

  function Words(st: Scan): seq<string> {
    Flush(st.words, st.word)
  }

  predicate Fresh(st: Scan) {
    st.words == [] && st.word == [] && !st.escaped
  }

  lemma {:induction false} ScanNames(start: Scan, names: seq<string>, seps: seq<Separator>)
    requires |seps| == |names| && AllPlain(names) && Fresh(start)
    ensures !ScanAll(start, Unfolded(names, seps)).escaped
    ensures Words(ScanAll(start, Unfolded(names, seps))) == DoubledAll(names)
    decreases |names|
  {
    if names != [] {
      hide ScanAll;
      hide Plain;
      var n := |names| - 1;
      ScanNames(start, names[..n], seps[..n]);
      ScanLastName(start, Unfolded(names[..n], seps[..n]), Gap(seps[n]), names[n]);
    }
  }

  lemma {:induction false} ScanLastName(start: Scan, before: string, gap: string, word: string)
    requires !ScanAll(start, before).escaped && Spaces(gap) && Plain(word)
    ensures !ScanAll(start, before + (gap + Escape(word))).escaped
    ensures Words(ScanAll(start, before + (gap + Escape(word)))) ==
            Words(ScanAll(start, before)) + [Doubled(word)]
  {
    ScanAppend(start, before, gap + Escape(word));
    ScanNextWord(ScanAll(start, before), gap, word);
  }

  lemma {:induction false} ScanNextWord(st: Scan, gap: string, word: string)
    requires !st.escaped && Spaces(gap) && Plain(word)
    ensures !ScanAll(st, gap + Escape(word)).escaped
    ensures Words(ScanAll(st, gap + Escape(word))) == Words(st) + [Doubled(word)]
  {
    ScanNext(st, gap, word);
    DoubledIdentityIff(word);
  }

  /** Words that are complete stay as they are, whatever follows. */
  lemma {:induction false} ScanOnlyAdds(st: Scan, s: string)
    ensures st.words <= ScanAll(st, s).words
  {
    if s != [] {
      ScanOnlyAdds(st, s[..|s| - 1]);
    }
  }

  lemma {:induction false} BeforeTargetStops(words: seq<string>, listed: seq<string>)
    requires listed <= words && (|words| == |listed| || EndsInColon(words[|listed|]))
    requires forall i :: 0 <= i < |listed| ==> !EndsInColon(listed[i])
    ensures BeforeTarget(words) == listed
  {
    if listed != [] {
      assert !EndsInColon(words[0]);
      BeforeTargetStops(words[1..], listed[1..]);
    }
  }

  lemma DoubledEnd(word: string)
    requires word != []
    ensures Doubled(word) != [] && Doubled(word)[|Doubled(word)| - 1] == word[|word| - 1]
  {}

  // ---- What may follow the names ----

  /** The rest of the paragraph after the names: nothing that is a word, or another target and its colon. */
  datatype Tail = NoWord(blank: string) | Target(name: string, after: string)

  function TailText(tail: Tail): string {
    match tail
    case NoWord(blank) => blank
    case Target(name, after) => ['\n'] + (Escape(name) + ([':'] + after))
  }

  predicate TailOk(tail: Tail) {
    match tail
    case NoWord(blank) => blank == [] || blank == ['\n']
    case Target(name, after) => Plain(name) && (after == [] || after[0] == '\n')
  }

  function EndingTail(ending: Ending): Tail {
    match ending
    case EndOfFile => NoWord(['\n'])
    case EmptyLine(_) => NoWord([])
    case OtherTarget(name, more) => Target(name, Paragraph(['\n'] + Unfold(more)))
  }

  lemma {:induction false} UnfoldAfterBreak(more: string)
    ensures Unfold(['\n'] + more) == ['\n'] + Unfold(more)
  {
    UnfoldSingle('\n');
    UnfoldAppend(['\n'], more);
  }

  lemma {:induction false} UnfoldOtherTarget(e: string, more: string)
    requires e != [] && OneLine(e) && Cuttable(e)
    ensures Unfold(['\n'] + (e + ([':', '\n'] + more))) == ['\n'] + ((e + [':']) + (['\n'] + Unfold(more)))
  {
    var rest := ['\n'] + more;
    assert e + ([':', '\n'] + more) == (e + [':']) + rest;
    UnfoldAfterBreak((e + [':']) + rest);
    UnfoldAppend(e + [':'], rest);
    UnfoldNothing(e + [':']);
    UnfoldAfterBreak(more);
  }

  lemma {:induction false} ParagraphAfterBreak(s: string)
    requires s != [] && s[0] != '\n'
    ensures Paragraph(['\n'] + s) == ['\n'] + Paragraph(s)
  {
    assert (['\n'] + s)[1..] == s;
  }

  lemma {:induction false} EndingParagraph(ending: Ending)
    requires ending.OtherTarget? ==> Plain(ending.name)
    ensures Paragraph(Unfold(EndingText(ending))) == TailText(EndingTail(ending)) && TailOk(EndingTail(ending))
  {
    match ending {
      case EndOfFile =>
        UnfoldSingle('\n');
        assert ['\n'][1..] == [];
      case EmptyLine(more) =>
        assert EndingText(ending) == ['\n'] + (['\n'] + more);
        UnfoldAfterBreak(['\n'] + more);
        UnfoldAfterBreak(more);
      case OtherTarget(name, more) =>
        EscapeKeepsLine(name);
        OtherTargetParagraph(Escape(name), more);
    }
  }

  lemma {:induction false} OtherTargetParagraph(e: string, more: string)
    requires e != [] && OneLine(e) && Cuttable(e)
    ensures Paragraph(Unfold(['\n'] + (e + ([':', '\n'] + more)))) ==
            ['\n'] + (e + ([':'] + Paragraph(['\n'] + Unfold(more))))
  {
    var rest := ['\n'] + Unfold(more);
    UnfoldOtherTarget(e, more);
    ParagraphAfterBreak((e + [':']) + rest);
    ParagraphAppend(e + [':'], rest);
    AppendAssociates(e, [':'], Paragraph(rest));
  }

  /** Reading another target completes the words before it and puts a word that ends in a colon after them. */
  lemma {:induction false} ScanTarget(st: Scan, name: string, after: string)
    requires !st.escaped && Plain(name) && (after == [] || after[0] == '\n')
    ensures var all := Words(ScanAll(st, TailText(Target(name, after))));
            Words(st) <= all && |all| > |Words(st)| && EndsInColon(all[|Words(st)|])
  {
    var named := Scan(Words(st), Doubled(name), false);
    ScanNext(st, ['\n'], name);
    ScanThrough(st, ['\n'], Escape(name), [':'] + after);
    ScanColon(named, after);
  }

  lemma {:induction false} ScanThrough(st: Scan, a: string, b: string, c: string)
    ensures ScanAll(st, a + (b + c)) == ScanAll(ScanAll(st, a + b), c)
  {
    AppendAssociates(a, b, c);
    ScanAppend(st, a + b, c);
  }

  lemma {:induction false} ScanColon(named: Scan, after: string)
    requires !named.escaped && (after == [] || after[0] == '\n')
    ensures var all := Words(ScanAll(named, [':'] + after));
            named.words <= all && |all| > |named.words| && EndsInColon(all[|named.words|])
  {
    ScanAppend(named, [':'], after);
    ScanSingle(named, ':');
    ScanAfterTarget(named.(word := named.word + [':']), after);
  }

  lemma {:induction false} ScanAfterTarget(full: Scan, after: string)
    requires !full.escaped && EndsInColon(full.word) && (after == [] || after[0] == '\n')
    ensures var all := Words(ScanAll(full, after));
            full.words <= all && |all| > |full.words| && EndsInColon(all[|full.words|])
  {
    if after != [] {
      assert after == ['\n'] + after[1..];
      ScanAppend(full, ['\n'], after[1..]);
      ScanSingle(full, '\n');
      ScanOnlyAdds(Scan(full.words + [full.word], [], false), after[1..]);
    }
  }

  /** The words after the colon of a rule: its names, then either nothing or a word that ends in a colon. */
  lemma {:induction false} ScanRule(names: seq<string>, seps: seq<Separator>, tail: Tail)
    requires |seps| == |names| && AllPlain(names) && TailOk(tail)
    ensures var words := MakeWords(Unfolded(names, seps) + TailText(tail));
            DoubledAll(names) <= words && (|words| == |names| || EndsInColon(words[|names|]))
  {
    hide Unfolded;
    hide DoubledAll;
    hide AllPlain;
    var start := Scan([], [], false);
    ScanNames(start, names, seps);
    var st := ScanAll(start, Unfolded(names, seps));
    ScanAppend(start, Unfolded(names, seps), TailText(tail));
    if tail.Target? {
      ScanTarget(st, tail.name, tail.after);
    } else if tail.blank != [] {
      ScanSingle(st, '\n');
    }
  }

  // ---- Round trip ----

  lemma {:induction false} UnfoldRule(target: string, names: seq<string>, seps: seq<Separator>, ending: Ending)
    requires |seps| == |names| && AllPlain(names)
    requires OneLine(target) && Cuttable(target)
    ensures Unfold(RuleText(target, names, seps, ending)) ==
            target + ([':'] + (Unfolded(names, seps) + Unfold(EndingText(ending))))
  {
    var rest := Names(names, seps) + EndingText(ending);
    UnfoldAppend(target, [':'] + rest);
    UnfoldNothing(target);
    UnfoldAppend([':'], rest);
    UnfoldSingle(':');
    NamesUnfold(names, seps);
    UnfoldAppend(Names(names, seps), EndingText(ending));
  }

  lemma {:induction false} ParagraphOfRule(target: string, body: string, rest: string)
    requires OneLine(target) && OneLine(body)
    ensures Paragraph(target + ([':'] + (body + rest))) == target + ([':'] + (body + Paragraph(rest)))
  {
    ParagraphAppend(target, [':'] + (body + rest));
    ParagraphAppend([':'], body + rest);
    ParagraphAppend(body, rest);
  }

  lemma {:induction false} ListedAfterColon(text: string, target: string, rest: string)
    requires Paragraph(Unfold(text)) == target + ([':'] + rest) && ':' !in target
    ensures ListedInputs(text) == BeforeTarget(MakeWords(rest))
  {
    var rule := target + ([':'] + rest);
    FirstIndexAt(rule, ':', |target|);
    assert rule[|target| + 1..] == rest;
  }

  /** Reading a rule as GCC writes it gives the names it lists, with every dollar sign doubled: exactly the names if and
      only if none contains one. Names may hold blanks, tabs and hashes; lines may be continued; -MP targets of either
      style may follow. */
  lemma {:induction false} RuleRoundTrip(target: string, names: seq<string>, seps: seq<Separator>, ending: Ending)
    requires |seps| == |names| && AllPlain(names) && (ending.OtherTarget? ==> Plain(ending.name))
    requires forall i :: 0 <= i < |names| ==> !EndsInColon(names[i])
    requires ':' !in target && OneLine(target) && Cuttable(target)
    ensures ListedInputs(RuleText(target, names, seps, ending)) == DoubledAll(names)
    ensures DoubledAll(names) == names <==> forall i :: 0 <= i < |names| ==> '$' !in names[i]
  {
    RuleParagraph(target, names, seps, ending);
    ListedAfterColon(RuleText(target, names, seps, ending), target,
                     Unfolded(names, seps) + TailText(EndingTail(ending)));
    ReadNames(names, seps, EndingTail(ending));
    DoubledWords(names);
  }

  lemma {:induction false} RuleParagraph(target: string, names: seq<string>, seps: seq<Separator>, ending: Ending)
    requires |seps| == |names| && AllPlain(names) && (ending.OtherTarget? ==> Plain(ending.name))
    requires OneLine(target) && Cuttable(target)
    ensures Paragraph(Unfold(RuleText(target, names, seps, ending))) ==
            target + ([':'] + (Unfolded(names, seps) + TailText(EndingTail(ending))))
    ensures TailOk(EndingTail(ending))
  {
    UnfoldRule(target, names, seps, ending);
    UnfoldedOneLine(names, seps);
    ParagraphOfRule(target, Unfolded(names, seps), Unfold(EndingText(ending)));
    EndingParagraph(ending);
  }

  lemma {:induction false} ReadNames(names: seq<string>, seps: seq<Separator>, tail: Tail)
    requires |seps| == |names| && AllPlain(names) && TailOk(tail)
    requires forall i :: 0 <= i < |names| ==> !EndsInColon(names[i])
    ensures BeforeTarget(MakeWords(Unfolded(names, seps) + TailText(tail))) == DoubledAll(names)
  {
    ScanRule(names, seps, tail);
    DoubledWords(names);
    BeforeTargetStops(MakeWords(Unfolded(names, seps) + TailText(tail)), DoubledAll(names));
  }

  lemma {:induction false} DoubledWords(names: seq<string>)
    requires AllPlain(names) && forall i :: 0 <= i < |names| ==> !EndsInColon(names[i])
    ensures forall i :: 0 <= i < |names| ==> !EndsInColon(DoubledAll(names)[i])
    ensures DoubledAll(names) == names <==> forall i :: 0 <= i < |names| ==> '$' !in names[i]
  {
    forall i | 0 <= i < |names|
      ensures !EndsInColon(Doubled(names[i])) && (Doubled(names[i]) == names[i] <==> '$' !in names[i])
    {
      DoubledEnd(names[i]);
      DoubledIdentityIff(names[i]);
    }
    forall i | 0 <= i < |names| ensures DoubledAll(names)[i] == Doubled(names[i]) {
      DoubledAllAt(names, i);
    }
  }
}
