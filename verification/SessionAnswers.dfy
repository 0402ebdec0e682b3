/** What GDB's answers mean to the engine: error messages, verification texts, stop reasons and frames. */
module SessionAnswers {
  import opened Common
  import opened MiSyntax
  import opened SessionModel
  import Transport
  import Supervision

  // ---- Reading an answer ----

  /** `text` holds `phrase`, which is in lower case, with letters of either case. */
  ghost predicate Says(text: string, phrase: string) {
    exists i :: SaysAt(text, phrase, i)
  }

  ghost predicate SaysAt(text: string, phrase: string, i: int) {
    0 <= i <= |text| - |phrase| && forall k :: 0 <= k < |phrase| ==> SameLetter(text[i + k], phrase[k])
  }

  ghost predicate SameLetter(c: char, lower: char) {
    c == lower || ('a' <= lower <= 'z' && c as int + 32 == lower as int)
  }

  ghost predicate LowerCase(phrase: string) {
    forall k :: 0 <= k < |phrase| ==> !('A' <= phrase[k] <= 'Z')
  }

  lemma {:induction false} SaysIff(text: string, phrase: string)
    requires LowerCase(phrase)
    ensures Contains(Lower(text), phrase) <==> Says(text, phrase)
  {
    var t := Lower(text);
    forall i: nat
      ensures OccursAt(t, phrase, i) <==> SaysAt(text, phrase, i)
    {
      if i + |phrase| <= |t| {
        var part := t[i..i + |phrase|];
        assert forall k :: 0 <= k < |phrase| ==> part[k] == LowerChar(text[i + k]);
      }
    }
    if Contains(t, phrase) {
      var i :| 0 <= i <= |t| && OccursAt(t, phrase, i);
      assert SaysAt(text, phrase, i);
    }
    if i :| SaysAt(text, phrase, i) {
      assert OccursAt(t, phrase, i);
    }
  }

  /** The i-th result is the first of that name. */
  ghost predicate Leads(results: seq<MiResult>, name: string, i: int) {
    0 <= i < |results| && results[i].variable == name && forall j :: 0 <= j < i ==> results[j].variable != name
  }

  lemma {:induction false} FindLeads(results: seq<MiResult>, name: string)
    ensures forall i :: Leads(results, name, i) ==> Find(results, name) == Some(results[i].value)
    ensures Find(results, name).Some? <==> exists i :: Leads(results, name, i)
  {
    if results != [] && results[0].variable != name {
      var rest := results[1..];
      FindLeads(rest, name);
      forall i
        ensures Leads(results, name, i) <==> Leads(rest, name, i - 1)
      {
        if Leads(rest, name, i - 1) {
          assert forall j :: 0 < j < i ==> results[j] == rest[j - 1];
        }
        if Leads(results, name, i) {
          assert i > 0 && forall j :: 0 <= j < i - 1 ==> rest[j] == results[j + 1];
        }
      }
      if i :| Leads(rest, name, i) {
        assert Leads(results, name, i + 1);
      }
      if i :| Leads(results, name, i) {
        assert Leads(rest, name, i - 1);
      }
    } else if results != [] {
      assert Leads(results, name, 0);
    }
  }

  /** The first result of that name is this text. */
  ghost predicate Has(results: seq<MiResult>, name: string, text: string) {
    exists i :: Leads(results, name, i) && results[i].value == Const(text)
  }

  /** The first result of that name is a tuple. */
  ghost predicate HasTuple(results: seq<MiResult>, name: string) {
    exists i :: Leads(results, name, i) && results[i].value.Tuple?
  }

  lemma {:induction false} FoundIff(results: seq<MiResult>, name: string, text: string)
    ensures FindConst(results, name) == Some(text) <==> Has(results, name, text)
    ensures FindTuple(results, name).Some? <==> HasTuple(results, name)
  {
    FindLeads(results, name);
  }

  const LOST := ["remote connection closed", "remote communication error", "target disconnected", "not connected"]

  ghost predicate SaysLost(text: string) {
    exists k :: 0 <= k < |LOST| && Says(text, LOST[k])
  }

  /** The answer's message speaks of a lost target. */
  ghost predicate Lost(o: Output) {
    exists text :: Has(o.results, "msg", text) && SaysLost(text)
  }

  lemma SaysLostCases(text: string)
    ensures SaysLost(text) <==> Says(text, "remote connection closed") || Says(text, "remote communication error")
                                || Says(text, "target disconnected") || Says(text, "not connected")
  {
    hide Says;
    assert LOST[0] == "remote connection closed" && LOST[1] == "remote communication error";
    assert LOST[2] == "target disconnected" && LOST[3] == "not connected";
  }

  lemma {:induction false} SaysLostIff(text: string)
    ensures var m := Lower(text);
            (Contains(m, "remote connection closed") || Contains(m, "remote communication error")
             || Contains(m, "target disconnected") || Contains(m, "not connected")) <==> SaysLost(text)
  {
    hide Contains;
    hide Says;
    hide SaysLost;
    hide Lower;
    SaysLostCases(text);
    SaysIff(text, "remote connection closed");
    SaysIff(text, "remote communication error");
    SaysIff(text, "target disconnected");
    SaysIff(text, "not connected");
  }

  lemma {:induction false} DefaultNotLost()
    ensures !SaysLost("GDB did not provide a message")
  {
    var text := "GDB did not provide a message";
    forall k | 0 <= k < |LOST|
      ensures !Says(text, LOST[k])
    {
      NotInDefault(LOST[k]);
    }
  }

  lemma {:induction false} NotInDefault(phrase: string)
    requires |phrase| > 4
    requires (phrase[0] == 'r' && phrase[1] == 'e') || (phrase[0] == 't' && phrase[1] == 'a') || phrase[4] == 'c'
    ensures !Says("GDB did not provide a message", phrase)
  {
    var text := "GDB did not provide a message";
    if i :| SaysAt(text, phrase, i) {
      assert SameLetter(text[i], phrase[0]) && SameLetter(text[i + 1], phrase[1]) && SameLetter(text[i + 4], phrase[4]);
    }
  }

  lemma {:induction false} CommandErrorIff(o: Output)
    ensures CommandError(o) == DebugError(if Lost(o) then GDB_TARGET_DISCONNECTED else GDB_COMMAND_FAILED)
  {
    hide SaysLost;
    hide Contains;
    hide Lower;
    var given := FindConst(o.results, "msg");
    SaysLostIff(if given.Some? then given.value else "GDB did not provide a message");
    DefaultNotLost();
    forall text
      ensures Has(o.results, "msg", text) <==> given == Some(text)
    {
      FoundIff(o.results, "msg", text);
    }
  }

  /** A line of OpenOCD's that tells of a lost target, in letters of either case. */
  lemma {:induction false} TargetLossIff(line: string)
    ensures Supervision.TargetLoss(line) <==>
            || (Says(line, "target voltage") && (Says(line, "low") || Says(line, "0.0")))
            || Says(line, "target examination failed") || Says(line, "unable to connect to target")
  {
    hide Contains;
    hide Says;
    hide Lower;
    SaysIff(line, "target voltage");
    SaysIff(line, "low");
    SaysIff(line, "0.0");
    SaysIff(line, "target examination failed");
    SaysIff(line, "unable to connect to target");
  }

  // ---- Verification ----

  /** The texts of the console and log records, in order. */
  function Spoken(records: seq<MiRecord>): seq<string> {
    if records == [] then []
    else
      var first := match records[0] case Console(text) => [text] case Log(text) => [text] case _ => [];
      first + Spoken(records[1..])
  }

  ghost predicate Refutes(text: string) {
    Says(text, "mis-match") || Says(text, "mismatch") || Says(text, "failed")
  }

  /** The joined texts speak of a match and of nothing that refutes it. */
  ghost predicate Affirmed(records: seq<MiRecord>) {
    var text := Concat(Spoken(records));
    Says(text, "matched") && !Refutes(text)
  }

  lemma {:induction false} VerificationTextIs(records: seq<MiRecord>)
    ensures VerificationText(records) == Concat(Spoken(records))
  {
    if records != [] {
      VerificationTextIs(records[1..]);
      var rest := Spoken(records[1..]);
      if records[0].Console? || records[0].Log? {
        assert Spoken(records)[1..] == rest;
      } else {
        assert Spoken(records) == rest;
      }
    }
  }

  lemma {:induction false} VerifiedIff(records: seq<MiRecord>)
    ensures Verified(records) <==> Affirmed(records)
  {
    hide Contains;
    hide Says;
    hide Lower;
    VerificationTextIs(records);
    var text := Concat(Spoken(records));
    SaysIff(text, "matched");
    SaysIff(text, "mis-match");
    SaysIff(text, "mismatch");
    SaysIff(text, "failed");
  }

  lemma {:induction false} SaysWithin(before: string, text: string, after: string, phrase: string)
    requires Says(text, phrase)
    ensures Says(before + text + after, phrase)
  {
    var i :| SaysAt(text, phrase, i);
    var whole := before + text + after;
    forall k | 0 <= k < |phrase|
      ensures SameLetter(whole[|before| + i + k], phrase[k])
    {
      assert whole[|before| + i + k] == text[i + k] && SameLetter(text[i + k], phrase[k]);
    }
    assert SaysAt(whole, phrase, |before| + i);
  }

  lemma {:induction false} RefutesWithin(before: string, text: string, after: string)
    requires Refutes(text)
    ensures Refutes(before + text + after)
  {
    hide Says;
    if Says(text, "mis-match") {
      SaysWithin(before, text, after, "mis-match");
    } else if Says(text, "mismatch") {
      SaysWithin(before, text, after, "mismatch");
    } else {
      SaysWithin(before, text, after, "failed");
    }
  }

  /** One refuting record is enough. */
  lemma {:induction false} RefutingRecord(records: seq<MiRecord>, k: nat)
    requires k < |records| && (records[k].Console? || records[k].Log?) && Refutes(records[k].text)
    ensures Refutes(Concat(Spoken(records)))
  {
    hide Refutes;
    var rest := Spoken(records[1..]);
    if k == 0 {
      assert Spoken(records) == [records[0].text] + rest;
      RefutesWithin([], records[0].text, Concat(rest));
      assert [] + records[0].text + Concat(rest) == Concat(Spoken(records));
    } else {
      RefutingRecord(records[1..], k - 1);
      var first := match records[0] case Console(text) => [text] case Log(text) => [text] case _ => [];
      ConcatAppend(first, rest);
      RefutesWithin(Concat(first), Concat(rest), []);
      assert Concat(first) + Concat(rest) + [] == Concat(Spoken(records));
    }
  }

  lemma {:induction false} OneLine(text: string)
    ensures Concat(Spoken([Console(text)])) == text
  {
    assert [Console(text)][1..] == [];
    assert Spoken([Console(text)]) == [text] && [text][1..] == [];
  }

  /** No m followed by an i, and no f followed by an a. */
  ghost predicate Unsuspicious(text: string) {
    forall i :: 0 <= i < |text| - 1 ==>
      && (SameLetter(text[i], 'm') ==> !SameLetter(text[i + 1], 'i'))
      && (SameLetter(text[i], 'f') ==> !SameLetter(text[i + 1], 'a'))
  }

  lemma LetterAt(text: string, phrase: string, i: int, k: int)
    requires SaysAt(text, phrase, i) && 0 <= k < |phrase|
    ensures SameLetter(text[i + k], phrase[k])
  {}

  lemma {:induction false} UnsuspiciousPasses(text: string)
    requires Unsuspicious(text)
    ensures !Refutes(text)
  {
    StartsSuspiciously(text, "mis-match");
    StartsSuspiciously(text, "mismatch");
    StartsSuspiciously(text, "failed");
  }

  lemma {:induction false} StartsSuspiciously(text: string, phrase: string)
    requires Unsuspicious(text) && |phrase| > 1
    requires (phrase[0] == 'm' && phrase[1] == 'i') || (phrase[0] == 'f' && phrase[1] == 'a')
    ensures !Says(text, phrase)
  {
    if i :| SaysAt(text, phrase, i) {
      LetterAt(text, phrase, i, 0);
      LetterAt(text, phrase, i, 1);
    }
  }

  lemma {:induction false} UnsuspiciousJoins(a: string, b: string)
    requires Unsuspicious(a) && Unsuspicious(b)
    requires a != [] && b != [] ==> !SameLetter(a[|a| - 1], 'm') && !SameLetter(a[|a| - 1], 'f')
    ensures Unsuspicious(a + b)
  {
    hide SameLetter;
    var ab := a + b;
    forall i | 0 <= i < |ab| - 1
      ensures && (SameLetter(ab[i], 'm') ==> !SameLetter(ab[i + 1], 'i'))
              && (SameLetter(ab[i], 'f') ==> !SameLetter(ab[i + 1], 'a'))
    {
      if i + 1 < |a| {
        assert ab[i] == a[i] && ab[i + 1] == a[i + 1];
      } else if i >= |a| {
        assert ab[i] == b[i - |a|] && ab[i + 1] == b[i - |a| + 1];
      }
    }
  }

  ghost predicate Harmless(part: string) {
    part != [] && Unsuspicious(part) && !SameLetter(part[|part| - 1], 'm') && !SameLetter(part[|part| - 1], 'f')
  }

  lemma {:induction false} HarmlessJoins(a: string, b: string)
    requires Harmless(a) && Harmless(b)
    ensures Harmless(a + b)
  {
    UnsuspiciousJoins(a, b);
  }

  /** What GDB prints for a section that matches, and for one that does not. */
  lemma {:induction false} GdbLines()
    ensures var start := "Section " + ".text, " + "range 0x0" + " -- 0x8: ";
            && Affirmed([Console(start + "matched.\n")])
            && !Affirmed([Console(start + "MIS-MATCHED!\n")])
  {
    hide Affirmed;
    Pieces();
    hide Harmless;
    HarmlessJoins("Section ", ".text, ");
    HarmlessJoins("Section " + ".text, ", "range 0x0");
    HarmlessJoins("Section " + ".text, " + "range 0x0", " -- 0x8: ");
    LineMatched("Section " + ".text, " + "range 0x0" + " -- 0x8: ");
    LineMismatched("Section " + ".text, " + "range 0x0" + " -- 0x8: ");
  }

  lemma {:induction false} Pieces()
    ensures Harmless("Section ") && Harmless(".text, ") && Harmless("range 0x0") && Harmless(" -- 0x8: ")
  {
    hide Harmless;
    NoLetters("Section ");
    NoLetters(".text, ");
    NoLetters("range 0x0");
    NoLetters(" -- 0x8: ");
  }

  lemma NoLetters(text: string)
    requires text != [] && forall i :: 0 <= i < |text| ==> (text[i] !in {'m', 'M', 'f', 'F'})
    ensures Harmless(text)
  {
    forall i | 0 <= i < |text|
      ensures !SameLetter(text[i], 'm') && !SameLetter(text[i], 'f')
    {
      assert text[i] !in {'m', 'M', 'f', 'F'};
    }
  }

  /** A line that ends in a match is affirmed when nothing before it is suspicious. */
  lemma {:induction false} LineMatched(start: string)
    requires Harmless(start)
    ensures Affirmed([Console(start + "matched.\n")])
  {
    Ending(start);
    var text := start + "matched.\n";
    OneLine(text);
    UnsuspiciousPasses(text);
  }

  lemma {:induction false} EndingHarmless(rest: string)
    requires Harmless(rest) && rest[0] == 'a'
    ensures Unsuspicious("m" + rest)
  {
    var text := "m" + rest;
    forall i | 0 <= i < |text| - 1
      ensures && (SameLetter(text[i], 'm') ==> !SameLetter(text[i + 1], 'i'))
              && (SameLetter(text[i], 'f') ==> !SameLetter(text[i + 1], 'a'))
    {
      if i > 0 {
        assert text[i] == rest[i - 1] && text[i + 1] == rest[i];
      }
    }
  }

  lemma {:induction false} Ending(start: string)
    requires Harmless(start)
    ensures var text := start + "matched.\n"; Unsuspicious(text) && Says(text, "matched")
  {
    var m, rest := "m", "atched.\n";
    var end := "matched.\n";
    NoLetters(rest);
    assert end == m + rest;
    EndingHarmless(rest);
    UnsuspiciousJoins(start, end);
    assert SaysAt(end, "matched", 0);
    SaysWithin(start, end, [], "matched");
    assert start + end + [] == start + end;
  }

  /** A line that ends in a mismatch is never affirmed. */
  lemma {:induction false} LineMismatched(start: string)
    ensures !Affirmed([Console(start + "MIS-MATCHED!\n")])
  {
    var end := "MIS-MATCHED!\n";
    OneLine(start + end);
    assert SaysAt(end, "mis-match", 0);
    RefutesWithin(start, end, []);
    assert start + end + [] == start + end;
  }

  // ---- Stops and frames ----

  /** GDB's reasons in the engine's words; any other reason is kept, and a stop without one is unknown. */
  lemma {:induction false} StopReasons(results: seq<MiResult>)
    ensures Has(results, "reason", "breakpoint-hit") ==> StopReason(results) == "breakpoint"
    ensures Has(results, "reason", "end-stepping-range") || Has(results, "reason", "function-finished")
            ==> StopReason(results) == "step"
    ensures Has(results, "reason", "signal-received") ==> StopReason(results) == "signal"
    ensures Has(results, "reason", "watchpoint-trigger") || Has(results, "reason", "read-watchpoint-trigger")
            || Has(results, "reason", "access-watchpoint-trigger")
            ==> StopReason(results) == "watchpoint"
    ensures forall text :: Has(results, "reason", text) ==>
              StopReason(results) == text || text in GDB_REASONS
    ensures (forall text :: !Has(results, "reason", text)) ==> StopReason(results) == "unknown"
  {
    var given := FindConst(results, "reason");
    forall text
      ensures Has(results, "reason", text) <==> given == Some(text)
    {
      FoundIff(results, "reason", text);
    }
    hide Has;
    hide FindConst;
  }

  const GDB_REASONS := ["breakpoint-hit", "end-stepping-range", "function-finished", "signal-received",
                        "watchpoint-trigger", "read-watchpoint-trigger", "access-watchpoint-trigger"]

  /** The details of a batch are those of its first stop record. */
  lemma {:induction false} FirstStop(before: seq<MiRecord>, results: seq<MiResult>, after: seq<MiRecord>)
    requires forall r :: r in before ==> !(r.Exec? && r.cls == "stopped")
    ensures StoppedDetails(before) == None
    ensures StoppedDetails(before + [Exec("stopped", results)] + after) == Some((StopReason(results), FrameOf(results)))
  {
    hide StopReason;
    hide FrameOf;
    var whole := before + [Exec("stopped", results)] + after;
    if before == [] {
      assert whole[0] == Exec("stopped", results);
    } else {
      assert before[0] in before;
      assert whole[1..] == before[1..] + [Exec("stopped", results)] + after;
      FirstStop(before[1..], results, after);
    }
  }

  /** Hexadecimal rendering without leading zeros, as GDB prints an address behind `0x`. */
  function Hex(n: nat): string {
    if n < 16 then [HexChar(n)] else Hex(n / 16) + [HexChar(n % 16)]
  }

  function HexChar(d: nat): char
    requires d < 16
  {
    if d < 10 then DigitChar(d) else ('a' as int + d - 10) as char
  }

  lemma {:induction false} HexIsRead(n: nat)
    ensures Hex(n) != [] && RadixDigit(Hex(n)[0], 16).Some? && RadixValue(Hex(n), 16) == Some(n)
  {
    if n >= 16 {
      HexIsRead(n / 16);
      assert Hex(n)[..|Hex(n)| - 1] == Hex(n / 16);
    } else {
      assert [HexChar(n)][..0] == [];
    }
  }

  lemma {:induction false} DecimalIsRead(n: nat)
    ensures IsDigit(Decimal(n)[0]) && RadixValue(Decimal(n), 10) == Some(n)
  {
    if n >= 10 {
      DecimalIsRead(n / 10);
      assert Decimal(n)[..|Decimal(n)| - 1] == Decimal(n / 10);
    } else {
      assert [DigitChar(n)][..0] == [];
    }
  }

  lemma {:induction false} NumbersAreRead(n: nat)
    ensures ParseUnsigned(Decimal(n), 10, U32_MAX) == if n <= U32_MAX then Some(n) else None
    ensures ParseAddress("0x" + Hex(n)) == if n <= U64_MAX then Some(n) else None
  {
    DecimalIsRead(n);
    HexIsRead(n);
    assert ("0x" + Hex(n))[2..] == Hex(n);
  }

  ghost predicate Lacks(results: seq<MiResult>, name: string) {
    forall text :: !Has(results, name, text)
  }

  /** The fields that GDB prints for a frame; only the level has to be there. */
  ghost predicate Describes(fields: seq<MiResult>, frame: StackFrame) {
    && Has(fields, "level", Decimal(frame.index)) && frame.index <= U32_MAX
    && (Has(fields, "func", frame.func) || (Lacks(fields, "func") && frame.func == "??"))
    && (match frame.file
        case Some(file) =>
          Has(fields, "fullname", file) || (Lacks(fields, "fullname") && Has(fields, "file", file))
        case None => Lacks(fields, "fullname") && Lacks(fields, "file"))
    && (match frame.line
        case Some(line) => Has(fields, "line", Decimal(line)) && line <= U32_MAX
        case None => Lacks(fields, "line"))
    && (match frame.address
        case Some(address) => Has(fields, "addr", "0x" + Hex(address)) && address <= U64_MAX
        case None => Lacks(fields, "addr"))
  }

  /** A frame is read back from the fields that describe it. */
  lemma {:induction false} FrameIsRead(results: seq<MiResult>, k: nat, fields: seq<MiResult>, frame: StackFrame)
    requires Leads(results, "frame", k) && results[k].value == Tuple(fields) && Describes(fields, frame)
    ensures FrameOf(results) == Some(frame)
  {
    FindLeads(results, "frame");
    hide Leads;
    hide Has;
    hide FindConst;
    hide ParseUnsigned;
    hide ParseAddress;
    forall name, text
      ensures Has(fields, name, text) <==> FindConst(fields, name) == Some(text)
    {
      FoundIff(fields, name, text);
    }
    NumbersAreRead(frame.index);
    if frame.line.Some? {
      NumbersAreRead(frame.line.value);
    }
    if frame.address.Some? {
      NumbersAreRead(frame.address.value);
    }
  }

  /** Without a tuple of that name, a level, or a level that fits, there is no frame. */
  lemma {:induction false} NoFrame(results: seq<MiResult>, k: nat, fields: seq<MiResult>, n: nat)
    ensures !HasTuple(results, "frame") ==> FrameOf(results) == None
    ensures Leads(results, "frame", k) && results[k].value == Tuple(fields)
            && (Lacks(fields, "level") || (Has(fields, "level", Decimal(n)) && n > U32_MAX))
            ==> FrameOf(results) == None
  {
    FindLeads(results, "frame");
    NumbersAreRead(n);
    var level := FindConst(fields, "level");
    FoundIff(fields, "level", if level.Some? then level.value else "");
    FoundIff(fields, "level", Decimal(n));
  }
}
