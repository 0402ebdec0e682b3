/** The engine's operations as scripts: which lines go to GDB, which events are told, and how each operation ends. */
module SessionScripts {
  import opened Common
  import opened MiSyntax
  import opened SessionModel
  import opened SessionAnswers

  // ---- Outlines ----

  /** A step of a history, leaving out the texts of target and debugger. */
  datatype Item = Said(line: string, wait: bool) | Taken(wait: bool) | ShutDown | Told(event: Event)

  function ItemsOf(entry: Entry): seq<Item> {
    match entry
    case Ca(CommandCall(command, wait, _)) => [Said(CommandText(command), wait)]
    case Ca(WaitCall(_)) => [Taken(true)]
    case Ca(PollCall(_)) => [Taken(false)]
    case Ca(ShutdownCall(_)) => [ShutDown]
    case Ev(e) => if e.TargetOutput? || e.LogLine? then [] else [Told(e)]
  }

  function Outline(trace: seq<Entry>): seq<Item> {
    if trace == [] then [] else Outline(trace[..|trace| - 1]) + ItemsOf(trace[|trace| - 1])
  }

  lemma {:induction false} OutlineOne(trace: seq<Entry>, entry: Entry)
    ensures Outline(trace + [entry]) == Outline(trace) + ItemsOf(entry)
  {
    assert (trace + [entry])[..|trace|] == trace;
  }

  lemma {:induction false} OutlineCaptured(trace: seq<Entry>, generation: nat, records: seq<MiRecord>)
    ensures Outline(trace + CapturedAll(generation, records)) == Outline(trace)
  {
    if records == [] {
      AppendEmpty(trace);
    } else {
      var n := |records| - 1;
      var before, last := CapturedAll(generation, records[..n]), Captured(generation, records[n]);
      OnlyTexts(generation, records[n]);
      hide Captured;
      hide Outline;
      OutlineCaptured(trace, generation, records[..n]);
      AppendAssociates(trace, before, last);
      if last == [] {
        AppendEmpty(trace + before);
      } else {
        OutlineOne(trace + before, last[0]);
        AppendEmpty(Outline(trace));
      }
    }
  }

  lemma OnlyTexts(generation: nat, record: MiRecord)
    ensures var c := Captured(generation, record); c == [] || (c == [c[0]] && ItemsOf(c[0]) == [])
  {}

  // ---- Scripts ----

  /** What an operation does from here on. An `Ask` goes on when the answer is of one of the classes; otherwise the
      operation ends with the answer's error, after telling what is left to tell. */
  datatype Script =
    | Return(frame: Option<StackFrame>)
    | Refuse(error: Failure)
    | Tell(event: Event, next: Script)
    | Ask(line: string, wait: bool, classes: set<string>, otherwise: Option<Event>, next: Script)
    | Take(wait: bool, next: Script)
    | Quit(next: Script)

  ghost predicate Passes(w: World, n: nat, classes: set<string>) {
    w.command(n).Ok? && w.command(n).value.resultClass in classes
  }

  /** The error of an answer that does not pass. */
  ghost function Why(w: World, n: nat): Failure {
    match w.command(n)
    case Err(e) => e
    case Ok(o) => DebugError(if Lost(o) then GDB_TARGET_DISCONNECTED else GDB_COMMAND_FAILED)
  }

  /** The outline and the outcome of a script whose first call is the n-th. */
  ghost function Play(w: World, n: nat, script: Script): (seq<Item>, Outcome)
    decreases script
  {
    match script
    case Return(frame) => ([], Ok(frame))
    case Refuse(error) => ([], Err(error))
    case Tell(event, next) =>
      var (items, r) := Play(w, n, next);
      ([Told(event)] + items, r)
    case Ask(line, wait, classes, otherwise, next) =>
      if Passes(w, n, classes) then
        var (items, r) := Play(w, n + 1, next);
        ([Said(line, wait)] + items, r)
      else ([Said(line, wait)] + (if otherwise.Some? then [Told(otherwise.value)] else []), Err(Why(w, n)))
    case Take(wait, next) =>
      if w.batch(n).Ok? then
        var (items, r) := Play(w, n + 1, next);
        ([Taken(wait)] + items, r)
      else ([Taken(wait)], Err(w.batch(n).error))
    case Quit(next) =>
      var (items, r) := Play(w, n + 1, next);
      ([ShutDown] + items, r)
  }

  function CallsOf(items: seq<Item>): nat {
    if items == [] then 0 else (if items[0].Told? then 0 else 1) + CallsOf(items[1..])
  }

  /** The state after the items told. */
  function StateAfter(state: State, items: seq<Item>): State
    decreases |items|
  {
    if items == [] then state
    else
      var next := if items[0].Told? && items[0].event.StateChange? then items[0].event.current else state;
      StateAfter(next, items[1..])
  }

  /** From s, the operation that ends in s' with r has played the script. */
  ghost predicate Plays(w: World, s: Session, script: Script, s': Session, r: Outcome) {
    var (items, outcome) := Play(w, s.calls, script);
    && r == outcome
    && Outline(s'.trace) == Outline(s.trace) + items
    && s'.calls == s.calls + CallsOf(items)
    && (s'.generation > 0 ==> s'.state == StateAfter(s.state, items))
  }

  lemma {:induction false} Done(w: World, s: Session, r: Outcome)
    ensures Plays(w, s, if r.Ok? then Return(r.value) else Refuse(r.error), s, r)
  {
    AppendEmpty(Outline(s.trace));
  }

  /** One item in front. */
  lemma {:induction false} Prepend(item: Item, items: seq<Item>, before: seq<Item>, state: State)
    ensures before + ([item] + items) == (before + [item]) + items
    ensures CallsOf([item] + items) == (if item.Told? then 0 else 1) + CallsOf(items)
    ensures StateAfter(state, [item] + items) ==
            StateAfter(if item.Told? && item.event.StateChange? then item.event.current else state, items)
  {
    assert ([item] + items)[1..] == items;
  }

  predicate OfOutline(e: Event) {
    !e.TargetOutput? && !e.LogLine? && !e.StateChange?
  }

  lemma {:induction false} TellPlays(w: World, s: Session, e: Event, next: Script, s': Session, r: Outcome)
    requires OfOutline(e) && Plays(w, Emit(s, e), next, s', r)
    ensures Plays(w, s, Tell(e, next), s', r)
  {
    hide Outline;
    hide CallsOf;
    hide StateAfter;
    OutlineOne(s.trace, Ev(e));
    Prepend(Told(e), Play(w, s.calls, next).0, Outline(s.trace), s.state);
  }

  /** A change of state, told once the session has a generation. */
  function Enter(generation: nat, from: State, to: State, next: Script): Script {
    if generation > 0 then Tell(StateChange(generation, from, to), next) else next
  }

  lemma {:induction false} EnterPlays(w: World, s: Session, to: State, next: Script, s': Session, r: Outcome)
    requires Plays(w, Transition(s, to), next, s', r) && (s'.generation > 0 ==> s.generation > 0)
    ensures Plays(w, s, Enter(s.generation, s.state, to, next), s', r)
  {
    if s.generation > 0 {
      hide Outline;
      hide CallsOf;
      hide StateAfter;
      var e := StateChange(s.generation, s.state, to);
      OutlineOne(s.trace, Ev(e));
      Prepend(Told(e), Play(w, s.calls, next).0, Outline(s.trace), s.state);
    }
  }

  ghost function Classes(want: Want): set<string> {
    match want
    case WantDone => {"done", "exit"}
    case WantConnected => {"connected", "done"}
    case WantRunning => {"running"}
  }

  /** A command says its line. */
  lemma {:induction false} RunSays(w: World, s: Session, command: MiCommand, wait: bool, want: Want)
    ensures Outline(Run(w, s, command, wait, want).0.trace) ==
            Outline(s.trace) + [Said(CommandText(command), wait)]
  {
    hide Outline;
    hide CapturedAll;
    hide CommandText;
    hide CommandError;
    var reply := w.command(s.calls);
    var call := CommandCall(command, wait, reply);
    OutlineOne(s.trace, Ca(call));
    if reply.Ok? {
      OutlineCaptured(s.trace + [Ca(call)], s.generation, reply.value.records);
    }
  }

  /** It fails for the reason its answer gives. */
  lemma {:induction false} RunAnswers(w: World, s: Session, command: MiCommand, wait: bool, want: Want)
    ensures var answer := Run(w, s, command, wait, want).1;
            && (answer.Ok? <==> Passes(w, s.calls, Classes(want)))
            && (answer.Ok? ==> answer.value == w.command(s.calls).value)
            && (answer.Err? ==> answer.error == Why(w, s.calls))
  {
    hide Lost;
    hide CommandError;
    var reply := w.command(s.calls);
    if reply.Ok? {
      CommandErrorIff(reply.value);
    }
  }

  lemma {:induction false} AskPlays(
    w: World, s: Session, command: MiCommand, wait: bool, want: Want, otherwise: Option<Event>, next: Script,
    s': Session, r: Outcome)
    requires otherwise.Some? ==> OfOutline(otherwise.value)
    requires var (s1, answer) := Run(w, s, command, wait, want);
             if answer.Ok? then Plays(w, s1, next, s', r)
             else s' == (if otherwise.Some? then Emit(s1, otherwise.value) else s1) && r == Err(answer.error)
    ensures Plays(w, s, Ask(CommandText(command), wait, Classes(want), otherwise, next), s', r)
  {
    hide Outline;
    hide Run;
    hide CommandText;
    hide Why;
    hide Passes;
    RunSays(w, s, command, wait, want);
    RunAnswers(w, s, command, wait, want);
    var s1 := Run(w, s, command, wait, want).0;
    var item := Said(CommandText(command), wait);
    var before := Outline(s.trace);
    if Passes(w, s.calls, Classes(want)) {
      Prepend(item, Play(w, s1.calls, next).0, before, s.state);
      hide CallsOf;
      hide StateAfter;
    } else if otherwise.None? {
      Prepend(item, [], before, s.state);
      assert [item] + [] == [item];
    } else {
      var e := otherwise.value;
      OutlineOne(s1.trace, Ev(e));
      Prepend(item, [Told(e)], before, s.state);
      assert [Told(e)][1..] == [];
    }
  }

  lemma {:induction false} TakePlays(
    w: World, s: Session, wait: bool, next: Script, s1: Session, s': Session, r: Outcome)
    requires s1 == Issue(s, if wait then WaitCall(w.batch(s.calls)) else PollCall(w.batch(s.calls)))
    requires if w.batch(s.calls).Ok? then Plays(w, Capture(s1, w.batch(s.calls).value), next, s', r)
             else s' == s1 && r == Err(w.batch(s.calls).error)
    ensures Plays(w, s, Take(wait, next), s', r)
  {
    hide Outline;
    hide CapturedAll;
    var batch := w.batch(s.calls);
    var item := Taken(wait);
    var before := Outline(s.trace);
    OutlineOne(s.trace, Ca(if wait then WaitCall(batch) else PollCall(batch)));
    if batch.Ok? {
      OutlineCaptured(s1.trace, s.generation, batch.value);
      Prepend(item, Play(w, s1.calls, next).0, before, s.state);
      hide CallsOf;
      hide StateAfter;
    } else {
      Prepend(item, [], before, s.state);
      assert [item] + [] == [item];
    }
  }

  lemma {:induction false} ClosePlays(w: World, s: Session, next: Script, s': Session, r: Outcome)
    requires Plays(w, Issue(s, ShutdownCall(w.shutdown(s.calls))), next, s', r)
    ensures Plays(w, s, Quit(next), s', r)
  {
    hide Outline;
    hide CallsOf;
    hide StateAfter;
    OutlineOne(s.trace, Ca(ShutdownCall(w.shutdown(s.calls))));
    Prepend(ShutDown, Play(w, s.calls + 1, next).0, Outline(s.trace), s.state);
  }

  // ---- The lines ----

  const DONE := {"done", "exit"}

  /** A console command between quotes, as GDB/MI takes it. */
  function ConsoleLine(command: string): string {
    "-interpreter-exec console " + ("\"" + command + "\"")
  }

  predicate Unescaped(text: string) {
    forall i :: 0 <= i < |text| ==> text[i] !in {'\\', '"', '\n', '\r', '\t'}
  }

  lemma {:induction false} EncodePlain(text: string)
    requires Unescaped(text)
    ensures Encode(text, QuoteStyle) == text
  {
    if text != [] {
      assert text[0] !in {'\\', '"', '\n', '\r', '\t'};
      assert EncodeByte(text[0], QuoteStyle(text[0])) == [text[0]];
      EncodePlain(text[1..]);
    }
  }

  lemma {:induction false} Lines()
    ensures CommandText(ResetTarget) == ConsoleLine("monitor reset halt")
    ensures CommandText(CompareSections) == ConsoleLine("compare-sections")
    ensures CommandText(FrameInfo) == "-stack-info-frame" && CommandText(Download) == "-target-download"
  {
    hide Encode;
    EncodePlain("monitor reset halt");
    EncodePlain("compare-sections");
  }

  /** A quoted path never breaks the line of its command. */
  lemma {:induction false} QuoteIsOneLine(text: string)
    ensures forall i :: 0 <= i < |Quote(text)| ==> Quote(text)[i] != '\n' && Quote(text)[i] != '\r'
  {
    EncodeIsOneLine(text);
  }

  lemma {:induction false} EncodeIsOneLine(text: string)
    ensures forall i :: 0 <= i < |Encode(text, QuoteStyle)| ==>
              Encode(text, QuoteStyle)[i] != '\n' && Encode(text, QuoteStyle)[i] != '\r'
  {
    if text != [] {
      EncodeIsOneLine(text[1..]);
    }
  }

  // ---- The operations' scripts ----

  function Results(w: World, n: nat): seq<MiResult> {
    if w.command(n).Ok? then w.command(n).value.results else []
  }

  function Records(w: World, n: nat): seq<MiRecord> {
    if w.command(n).Ok? then w.command(n).value.records else []
  }

  predicate StopSeen(w: World, n: nat) {
    w.command(n).Ok? && w.command(n).value.stoppedAfterCommand
  }

  /** A running engine halts and tells the stop: with the frame of the stop record if there is one, otherwise with the
      frame GDB is asked for, and without a frame if GDB refuses. */
  function Announce(w: World, n: nat, g: nat, records: seq<MiRecord>, fallback: string, keep: bool): Script {
    var details := StoppedDetails(records);
    var reason := if details.Some? then details.value.0 else fallback;
    var known := if details.Some? then details.value.1 else None;
    var asked := FrameOf(Results(w, n));
    Enter(g, Running, Halted,
          if known.Some? then
           Tell(Stopped(g, reason, known), Return(if keep then known else None))
         else
           Ask("-stack-info-frame", false, DONE, Some(Stopped(g, reason, None)),
               Tell(Stopped(g, reason, asked), Return(if keep then asked else None))))
  }

  /** A reset that counts only when GDB then shows a frame. */
  ghost function Confirm(w: World, n: nat, next: Script): Script {
    Ask(ConsoleLine("monitor reset halt"), false, DONE, None,
        Ask("-stack-info-frame", false, DONE, None,
            if HasTuple(Results(w, n + 1), "frame") then next else Refuse(DebugError(TARGET_HALT_UNCONFIRMED))))
  }

  predicate SerialOk(serial: string) {
    serial != [] && forall i :: 0 <= i < |serial| ==> 0x20 <= serial[i] as int < 0x7F || 0xA0 <= serial[i] as int
  }

  ghost function Connecting(w: World, n: nat, g: nat, port: nat, elf: string): Script {
    Ask("-gdb-set mi-async on", false, DONE, None,
        Ask("-file-exec-and-symbols " + Quote(elf), false, DONE, None,
            Ask("-target-select remote 127.0.0.1:" + Decimal(port), false, {"connected", "done"}, None,
                Enter(g, GdbStarting, Connected,
                     Confirm(w, n + 3,
                             Enter(g, Connected, Halted,
                                  Tell(Stopped(g, "reset", None), Return(None))))))))
  }

  function Starting(g: nat, serial: string, port: nat, next: Script): Script {
    Enter(g, Idle, ProbeSelected,
         Tell(ProbeChosen(g, serial),
              Enter(g, ProbeSelected, ServerStarting,
                   Tell(ServerStarted(g),
                        Enter(g, ServerStarting, ServerReady,
                             Tell(ServerIsReady(g, port),
                                  Enter(g, ServerReady, GdbStarting,
                                       Tell(GdbStarted(g), next))))))))
  }

  function Resume(g: nat, next: Script): Script {
    Enter(g, Halted, Running, Tell(TargetRunning(g), next))
  }

  function Inspecting(queries: seq<Query>): Script {
    if queries == [] then Return(None)
    else
      var (query, rest) := (queries[0], queries[1..]);
      Ask(query.command, false, DONE, None,
          if query.refusal.Some? then Refuse(DebugError(query.refusal.value)) else Inspecting(rest))
  }

  ghost function Loading(w: World, n: nat, g: nat): Script {
    Tell(Progress(g, 0),
         Ask("-target-download", false, DONE, None,
             Ask(ConsoleLine("compare-sections"), false, DONE, None,
                 if Affirmed(Records(w, n + 1)) then
                   Confirm(w, n + 2, Tell(Progress(g, 1), Tell(Loaded(g), Return(None))))
                 else Refuse(DebugError(FIRMWARE_VERIFY_FAILED)))))
  }

  function Closing(w: World, n: nat, g: nat, from: State, reason: string, heed: bool): Script {
    var end := if heed && w.shutdown(n).Err? then Refuse(w.shutdown(n).error) else Return(None);
    Enter(g, from, Disconnecting, Quit(Enter(g, Disconnecting, Idle, Tell(SessionStopped(g, reason), end))))
  }

  ghost function ScriptOf(w: World, s: Session, op: Op): Script {
    var n, g := s.calls, s.generation;
    match op
    case Start(serial, port, elf) =>
      if s.state != Idle then Refuse(INVALID_STATE)
      else if !SerialOk(serial) then Refuse(DebugError(PROBE_SERIAL_INVALID))
      else if elf.None? then Refuse(DebugError(Other("FIRMWARE_PATH_INVALID")))
      else
        var next := if g < U64_MAX then g + 1 else U64_MAX;
        Starting(next, serial, port, Connecting(w, n, next, port, elf.value))
    case Connect(serial, port, elf) =>
      if s.state != GdbStarting then Refuse(INVALID_STATE)
      else if g == 0 then Refuse(DebugError(SESSION_GENERATION_INVALID))
      else if !SerialOk(serial) then Refuse(DebugError(PROBE_SERIAL_INVALID))
      else if elf.None? then Refuse(DebugError(Other("FIRMWARE_PATH_INVALID")))
      else Connecting(w, n, g, port, elf.value)
    case Continue =>
      if s.state != Halted then Refuse(INVALID_STATE)
      else
        Ask("-exec-continue", false, {"running"}, None,
            Resume(g, if StopSeen(w, n) then Announce(w, n + 1, g, Records(w, n), "unknown", false)
                        else Return(None)))
    case Halt =>
      if s.state != Running then Refuse(INVALID_STATE)
      else Ask("-exec-interrupt --all", true, DONE, None, Announce(w, n + 1, g, Records(w, n), "halt", true))
    case WaitStopped =>
      if s.state != Running then Refuse(INVALID_STATE)
      else Take(true, Announce(w, n + 1, g, if w.batch(n).Ok? then w.batch(n).value else [], "unknown", true))
    case Step(over) =>
      if s.state != Halted then Refuse(INVALID_STATE)
      else
        Ask(if over then "-exec-next" else "-exec-step", true, {"running"}, None,
            Resume(g, if StopSeen(w, n) then Announce(w, n + 1, g, Records(w, n), "step", true)
                        else
                          Ask("-exec-interrupt --all", true, DONE, None,
                              Announce(w, n + 2, g, Records(w, n + 1), "step", true))))
    case ResetHalt =>
      if s.state != Halted && s.state != Running then Refuse(INVALID_STATE)
      else
        var frame := FrameOf(Results(w, n + 1));
        var query :=
          Ask("-stack-info-frame", false, DONE, None,
              if frame.None? then Refuse(DebugError(TARGET_HALT_UNCONFIRMED))
              else Tell(Reset(g), Tell(Stopped(g, "reset", frame), Return(None))));
        Ask(ConsoleLine("monitor reset halt"), false, DONE, None,
            if s.state == Running then Enter(g, Running, Halted, query) else query)
    case Inspect(badArgument, queries) =>
      if s.state != Halted then Refuse(INVALID_STATE)
      else if badArgument.Some? then Refuse(DebugError(badArgument.value))
      else Inspecting(queries)
    case Load(authorization) =>
      if s.state != Halted then Refuse(INVALID_STATE)
      else if s.probe.None? then Refuse(DebugError(SESSION_PROBE_MISSING))
      else if authorization != "firmware.load:" + s.probe.value then
        Refuse(Failure(Authorization, AUTHORIZATION_REJECTED))
      else Loading(w, n, g)
    case PollEvents =>
      if s.state == Idle then Return(None)
      else
        var batch := if w.batch(n).Ok? then w.batch(n).value else [];
        Take(false,
             if s.state == Running && exists r :: r in batch && r.Exec? && r.cls == "stopped"
             then Announce(w, n + 1, g, batch, "unknown", false)
             else Return(None))
    case Stop => if s.state == Idle then Return(None) else Closing(w, n, g, s.state, "requested", true)
    case Fail(cause) =>
      if s.state == Idle then Return(None)
      else Enter(g, s.state, Failed, Tell(SessionError(g, cause.code), Closing(w, n, g, Failed, "error", false)))
    case Cancel(operation) =>
      if s.state == Idle then Return(None)
      else
        Enter(g, s.state, Cancelling,
              Tell(Cancelled(g, operation), Closing(w, n, g, Cancelling, "cancelled", false)))
  }
}
