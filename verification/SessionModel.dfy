/** What every `SessionEngine` operation of `session.rs` does, as functions of the session and of the answers an
    arbitrary debugger transport gives. */
module SessionModel {
  import opened Common
  import opened MiSyntax
  import Transport

  type Output = Transport.Output

  const U32_MAX := 0xFFFF_FFFF

  datatype State =
    | Idle | ProbeSelected | ServerStarting | ServerReady | GdbStarting | Connected | Halted | Running
    | Failed | Cancelling | Disconnecting

  datatype StackFrame = StackFrame(
    index: nat, func: string, file: Option<string>, line: Option<nat>, address: Option<nat>)

  datatype Event =
    | ProbeChosen(generation: nat, serial: string)
    | ServerStarted(generation: nat)
    | ServerIsReady(generation: nat, port: nat)
    | GdbStarted(generation: nat)
    | StateChange(generation: nat, previous: State, current: State)
    | TargetRunning(generation: nat)
    | Stopped(generation: nat, reason: string, frame: Option<StackFrame>)
    | Reset(generation: nat)
    | Progress(generation: nat, completed: nat)
    | Loaded(generation: nat)
    | TargetOutput(generation: nat, text: string)
    | LogLine(generation: nat, source: string, text: string)
    | SessionError(generation: nat, code: Code)
    | Cancelled(generation: nat, operation: string)
    | SessionStopped(generation: nat, reason: string)

  /** The commands of the engine; an inspection brings its own text. */
  datatype MiCommand =
    | MiAsync | Symbols(elf: string) | SelectRemote(port: nat)
    | ResetTarget | FrameInfo | Download | CompareSections
    | ExecContinue | ExecStep | ExecNext | Interrupt
    | Inspection(text: string)

  /** The text sent to GDB. */
  function CommandText(c: MiCommand): string {
    match c
    case MiAsync => "-gdb-set mi-async on"
    case Symbols(elf) => "-file-exec-and-symbols " + Quote(elf)
    case SelectRemote(port) => "-target-select remote 127.0.0.1:" + Decimal(port)
    case ResetTarget => "-interpreter-exec console " + Quote("monitor reset halt")
    case FrameInfo => "-stack-info-frame"
    case Download => "-target-download"
    case CompareSections => "-interpreter-exec console " + Quote("compare-sections")
    case ExecContinue => "-exec-continue"
    case ExecStep => "-exec-step"
    case ExecNext => "-exec-next"
    case Interrupt => "-exec-interrupt --all"
    case Inspection(text) => text
  }

  /** A call to the transport with the answer it got. */
  datatype Call =
    | CommandCall(command: MiCommand, wait: bool, reply: Result<Output>)
    | WaitCall(batch: Result<seq<MiRecord>>)
    | PollCall(batch: Result<seq<MiRecord>>)
    | ShutdownCall(outcome: Result<()>)

  /** The history of a session: its events and its transport calls, in order. */
  datatype Entry = Ev(event: Event) | Ca(call: Call)

  /** An arbitrary transport: what it answers to its n-th call. */
  datatype World = World(
    command: nat -> Result<Output>, batch: nat -> Result<seq<MiRecord>>, shutdown: nat -> Result<()>)

  datatype Session = Session(state: State, generation: nat, probe: Option<string>, calls: nat, trace: seq<Entry>)

  function New(): Session {
    Session(Idle, 0, None, 0, [])
  }

  /** An engine that takes over a lifecycle its owner has already published up to `GdbStarting`. */
  function Started(generation: nat): Session {
    Session(GdbStarting, generation, None, 0, [])
  }

  function DebugError(code: Code): Failure {
    Failure(Debugger, code)
  }

  // ---- Reading records ----

  function Find(results: seq<MiResult>, name: string): Option<MiValue> {
    if results == [] then None
    else if results[0].variable == name then Some(results[0].value)
    else Find(results[1..], name)
  }

  function FindTuple(results: seq<MiResult>, name: string): Option<seq<MiResult>> {
    match Find(results, name)
    case Some(Tuple(fields)) => Some(fields)
    case _ => None
  }

  function FindConst(results: seq<MiResult>, name: string): Option<string> {
    match Find(results, name)
    case Some(Const(text)) => Some(text)
    case _ => None
  }

  function ParseAddress(text: string): Option<nat> {
    ParseUnsigned(if |text| >= 2 && text[..2] == "0x" then text[2..] else text, 16, U64_MAX)
  }

  function ParseFrame(fields: seq<MiResult>): Option<StackFrame> {
    match FindConst(fields, "level")
    case None => None
    case Some(level) =>
      match ParseUnsigned(level, 10, U32_MAX)
      case None => None
      case Some(index) =>
        var file := FindConst(fields, "fullname");
        var line := FindConst(fields, "line");
        var address := FindConst(fields, "addr");
        var func := FindConst(fields, "func");
        Some(StackFrame(
               index,
               if func.Some? then func.value else "??",
               if file.Some? then file else FindConst(fields, "file"),
               if line.Some? then ParseUnsigned(line.value, 10, U32_MAX) else None,
               if address.Some? then ParseAddress(address.value) else None))
  }

  function FrameOf(results: seq<MiResult>): Option<StackFrame> {
    match FindTuple(results, "frame")
    case Some(fields) => ParseFrame(fields)
    case None => None
  }

  function StopReason(results: seq<MiResult>): string {
    var given := FindConst(results, "reason");
    var reason := if given.Some? then given.value else "unknown";
    if reason == "breakpoint-hit" then "breakpoint"
    else if reason == "end-stepping-range" || reason == "function-finished" then "step"
    else if reason == "signal-received" then "signal"
    else if reason == "watchpoint-trigger" || reason == "read-watchpoint-trigger"
            || reason == "access-watchpoint-trigger"
      then "watchpoint"
    else reason
  }

  /** Reason and frame of the first stop record of a batch. */
  function StoppedDetails(records: seq<MiRecord>): Option<(string, Option<StackFrame>)> {
    if records == [] then None
    else if Transport.IsStop(records[0]) then Some((StopReason(records[0].results), FrameOf(records[0].results)))
    else StoppedDetails(records[1..])
  }

  /** The first stop of the batch decides: one that was already queued before the command hides the command's own. */
  lemma {:induction false} StaleStopDecides(queued: seq<MiRecord>, since: seq<MiRecord>)
    ensures StoppedDetails(queued + since) ==
            if Transport.HasStop(queued) then StoppedDetails(queued) else StoppedDetails(since)
    ensures StoppedDetails(queued).Some? <==> Transport.HasStop(queued)
  {
    if queued == [] {
      assert queued + since == since;
    } else {
      assert (queued + since)[1..] == queued[1..] + since;
      StaleStopDecides(queued[1..], since);
      if i :| 0 <= i < |queued[1..]| && Transport.IsStop(queued[1..][i]) {
        assert Transport.IsStop(queued[i + 1]);
      }
      if i :| 0 <= i < |queued| && Transport.IsStop(queued[i]) {
        assert i == 0 || Transport.IsStop(queued[1..][i - 1]);
      }
    }
  }

  /** A queued breakpoint stop hides that the command itself ended a step. */
  lemma {:induction false} StaleStopHides()
    ensures var queued := [Exec("stopped", [MiResult("reason", Const("breakpoint-hit"))])];
            var since := [Exec("stopped", [MiResult("reason", Const("end-stepping-range"))])];
            && StoppedDetails(since).value.0 == "step" && StoppedDetails(queued + since).value.0 == "breakpoint"
  {
    var queued := [Exec("stopped", [MiResult("reason", Const("breakpoint-hit"))])];
    var since := [Exec("stopped", [MiResult("reason", Const("end-stepping-range"))])];
    StaleStopDecides(queued, since);
    assert Transport.IsStop(queued[0]);
    hide FrameOf;
    assert StoppedDetails(queued).value.0 == StopReason(queued[0].results);
    assert StoppedDetails(since).value.0 == StopReason(since[0].results);
  }

  function CommandError(o: Output): Failure {
    var given := FindConst(o.results, "msg");
    var message := Lower(if given.Some? then given.value else "GDB did not provide a message");
    if Contains(message, "remote connection closed") || Contains(message, "remote communication error")
       || Contains(message, "target disconnected") || Contains(message, "not connected")
    then DebugError(GDB_TARGET_DISCONNECTED) else DebugError(GDB_COMMAND_FAILED)
  }

  function VerificationText(records: seq<MiRecord>): string {
    if records == [] then []
    else (if records[0].Console? || records[0].Log? then records[0].text else []) + VerificationText(records[1..])
  }

  /** compare-sections reported matches and nothing that counts as a mismatch or failure. */
  predicate Verified(records: seq<MiRecord>) {
    var text := Lower(VerificationText(records));
    && Contains(text, "matched")
    && !Contains(text, "mis-match") && !Contains(text, "mismatch") && !Contains(text, "failed")
  }

  // ---- Building blocks ----

  function Emit(s: Session, e: Event): Session {
    s.(trace := s.trace + [Ev(e)])
  }

  function Transition(s: Session, next: State): Session {
    var moved := s.(state := next);
    if s.generation > 0 then Emit(moved, StateChange(s.generation, s.state, next)) else moved
  }

  function Issue(s: Session, c: Call): Session {
    s.(calls := s.calls + 1, trace := s.trace + [Ca(c)])
  }

  function Captured(generation: nat, record: MiRecord): seq<Entry> {
    match record
    case Target(text) => [Ev(TargetOutput(generation, text))]
    case Console(text) => [Ev(LogLine(generation, "gdb", text))]
    case Log(text) => [Ev(LogLine(generation, "gdb", text))]
    case _ => []
  }

  function CapturedAll(generation: nat, records: seq<MiRecord>): seq<Entry> {
    if records == [] then []
    else CapturedAll(generation, records[..|records| - 1]) + Captured(generation, records[|records| - 1])
  }

  function Capture(s: Session, records: seq<MiRecord>): Session {
    s.(trace := s.trace + CapturedAll(s.generation, records))
  }

  datatype Want = WantDone | WantConnected | WantRunning

  predicate Accepts(want: Want, cls: string) {
    match want
    case WantDone => cls == "done" || cls == "exit"
    case WantConnected => cls == "connected" || cls == "done"
    case WantRunning => cls == "running"
  }

  /** Whether the n-th transport answer is an accepted result. */
  predicate Succeeds(w: World, n: nat, want: Want) {
    w.command(n).Ok? && Accepts(want, w.command(n).value.resultClass)
  }

  /** `run_done`, `run_connected` and `run_running`. */
  function Run(w: World, s: Session, command: MiCommand, wait: bool, want: Want): (r: (Session, Result<Output>))
    ensures r.0 == s.(calls := s.calls + 1, trace := r.0.trace)
    ensures r.1.Ok? <==> Succeeds(w, s.calls, want)
    ensures r.1.Ok? ==> r.1 == w.command(s.calls)
  {
    var reply := w.command(s.calls);
    var issued := Issue(s, CommandCall(command, wait, reply));
    match reply
    case Err(e) => (issued, Err(e))
    case Ok(o) => (Capture(issued, o.records), if Accepts(want, o.resultClass) then Ok(o) else Err(CommandError(o)))
  }

  function ResetAndConfirm(w: World, s: Session): (r: (Session, Result<()>))
    ensures r.0 == s.(calls := r.0.calls, trace := r.0.trace) && r.0.calls > s.calls
    ensures r.1.Ok? <==> Succeeds(w, s.calls, WantDone) && Succeeds(w, s.calls + 1, WantDone)
                         && FindTuple(w.command(s.calls + 1).value.results, "frame").Some?
  {
    var (s1, reset) := Run(w, s, ResetTarget, false, WantDone);
    if reset.Err? then (s1, Err(reset.error))
    else
      var (s2, frame) := Run(w, s1, FrameInfo, false, WantDone);
      if frame.Err? then (s2, Err(frame.error))
      else if FindTuple(frame.value.results, "frame").None? then (s2, Err(DebugError(TARGET_HALT_UNCONFIRMED)))
      else (s2, Ok(()))
  }

  /** Enters Halted and announces the stop, whether or not the frame can be found out. */
  function FinishStop(
    w: World, s: Session, records: seq<MiRecord>, fallback: string): (r: (Session, Result<Option<StackFrame>>))
    ensures r.0.calls >= s.calls
  {
    var details := StoppedDetails(records);
    var reason := if details.Some? then details.value.0 else fallback;
    var s1 := if s.state != Halted then Transition(s, Halted) else s;
    if details.Some? && details.value.1.Some? then
      (Emit(s1, Stopped(s.generation, reason, details.value.1)), Ok(details.value.1))
    else
      var (s2, query) := Run(w, s1, FrameInfo, false, WantDone);
      if query.Err? then (Emit(s2, Stopped(s.generation, reason, None)), Err(query.error))
      else
        var frame := FrameOf(query.value.results);
        (Emit(s2, Stopped(s.generation, reason, frame)), Ok(frame))
  }

  /** The end that every cleanup shares. */
  function Close(w: World, s: Session, reason: string): Session {
    var s1 := Transition(s, Disconnecting);
    var s2 := Issue(s1, ShutdownCall(w.shutdown(s1.calls)));
    Emit(Transition(s2, Idle).(probe := None), SessionStopped(s.generation, reason))
  }

  // ---- Operations ----

  predicate IsControl(c: char) {
    c as int < 0x20 || 0x7F <= c as int < 0xA0
  }

  predicate BadSerial(serial: string) {
    serial == [] || exists i :: 0 <= i < |serial| && IsControl(serial[i])
  }

  /** One command of an inspection, and why its answer is refused, if it is. */
  datatype Query = Query(command: string, refusal: Option<Code>)

  /** The public operations. `elf` is the path, `None` when it is not valid UTF-8. An `Inspect` is any of the
      breakpoint, stack, variable, register, memory and disassembly requests: a check of its arguments, then one or
      two commands, each of whose answers may be refused. */
  datatype Op =
    | Start(serial: string, port: nat, elf: Option<string>)
    | Connect(serial: string, port: nat, elf: Option<string>)
    | Continue
    | Halt
    | WaitStopped
    | Step(over: bool)
    | ResetHalt
    | Inspect(badArgument: Option<Code>, queries: seq<Query>)
    | Load(authorization: string)
    | PollEvents
    | Stop
    | Fail(cause: Failure)
    | Cancel(operation: string)

  type Outcome = Result<Option<StackFrame>>

  const INVALID_STATE := DebugError(INVALID_SESSION_STATE)

  function DoConnect(w: World, s: Session, serial: string, port: nat, elf: Option<string>): (r: (Session, Outcome))
    ensures r.0 == s || r.0.calls > s.calls
  {
    if s.state != GdbStarting then (s, Err(INVALID_STATE))
    else if s.generation == 0 then (s, Err(DebugError(SESSION_GENERATION_INVALID)))
    else if BadSerial(serial) then (s, Err(DebugError(PROBE_SERIAL_INVALID)))
    else if elf.None? then (s, Err(DebugError(Other("FIRMWARE_PATH_INVALID"))))
    else
      var s0 := s.(probe := Some(serial));
      var (s1, async) := Run(w, s0, MiAsync, false, WantDone);
      if async.Err? then (s1, Err(async.error))
      else
        var (s2, symbols) := Run(w, s1, Symbols(elf.value), false, WantDone);
        if symbols.Err? then (s2, Err(symbols.error))
        else
          var (s3, target) := Run(w, s2, SelectRemote(port), false, WantConnected);
          if target.Err? then (s3, Err(target.error))
          else
            var (s4, reset) := ResetAndConfirm(w, Transition(s3, Connected));
            if reset.Err? then (s4, Err(reset.error))
            else (Emit(Transition(s4, Halted), Stopped(s.generation, "reset", None)), Ok(None))
  }

  /** The states and events a start goes through before it connects. */
  function Prepare(s: Session, serial: string, port: nat): Session {
    var s0 := s.(generation := Min(s.generation + 1, U64_MAX), probe := Some(serial));
    var g := s0.generation;
    var s1 := Emit(Transition(s0, ProbeSelected), ProbeChosen(g, serial));
    var s2 := Emit(Transition(s1, ServerStarting), ServerStarted(g));
    var s3 := Emit(Transition(s2, ServerReady), ServerIsReady(g, port));
    Emit(Transition(s3, GdbStarting), GdbStarted(g))
  }

  function DoStart(w: World, s: Session, serial: string, port: nat, elf: Option<string>): (Session, Outcome) {
    if s.state != Idle then (s, Err(INVALID_STATE))
    else if BadSerial(serial) then (s, Err(DebugError(PROBE_SERIAL_INVALID)))
    else if elf.None? then (s, Err(DebugError(Other("FIRMWARE_PATH_INVALID"))))
    else DoConnect(w, Prepare(s, serial, port), serial, port, elf)
  }

  function DoContinue(w: World, s: Session): (Session, Outcome) {
    if s.state != Halted then (s, Err(INVALID_STATE))
    else
      var (s1, run) := Run(w, s, ExecContinue, false, WantRunning);
      if run.Err? then (s1, Err(run.error))
      else
        var s2 := Emit(Transition(s1, Running), TargetRunning(s.generation));
        if run.value.stoppedAfterCommand then
          var (s3, r) := FinishStop(w, s2, run.value.records, "unknown");
          (s3, if r.Err? then r else Ok(None))
        else (s2, Ok(None))
  }

  function DoHalt(w: World, s: Session): (Session, Outcome) {
    if s.state != Running then (s, Err(INVALID_STATE))
    else
      var (s1, interrupt) := Run(w, s, Interrupt, true, WantDone);
      if interrupt.Err? then (s1, Err(interrupt.error)) else FinishStop(w, s1, interrupt.value.records, "halt")
  }

  function DoWait(w: World, s: Session): (Session, Outcome) {
    if s.state != Running then (s, Err(INVALID_STATE))
    else
      var batch := w.batch(s.calls);
      var s1 := Issue(s, WaitCall(batch));
      if batch.Err? then (s1, Err(batch.error)) else FinishStop(w, Capture(s1, batch.value), batch.value, "unknown")
  }

  function DoStep(w: World, s: Session, over: bool): (Session, Outcome) {
    if s.state != Halted then (s, Err(INVALID_STATE))
    else
      var (s1, run) := Run(w, s, if over then ExecNext else ExecStep, true, WantRunning);
      if run.Err? then (s1, Err(run.error))
      else
        var s2 := Emit(Transition(s1, Running), TargetRunning(s.generation));
        if run.value.stoppedAfterCommand then FinishStop(w, s2, run.value.records, "step")
        else
          var (s3, interrupt) := Run(w, s2, Interrupt, true, WantDone);
          if interrupt.Err? then (s3, Err(interrupt.error)) else FinishStop(w, s3, interrupt.value.records, "step")
  }

  function DoResetHalt(w: World, s: Session): (Session, Outcome) {
    if s.state != Halted && s.state != Running then (s, Err(INVALID_STATE))
    else
      var (s1, reset) := Run(w, s, ResetTarget, false, WantDone);
      if reset.Err? then (s1, Err(reset.error))
      else
        var s2 := if s1.state == Running then Transition(s1, Halted) else s1;
        var (s3, query) := Run(w, s2, FrameInfo, false, WantDone);
        if query.Err? then (s3, Err(query.error))
        else
          var frame := FrameOf(query.value.results);
          if frame.None? then (s3, Err(DebugError(TARGET_HALT_UNCONFIRMED)))
          else (Emit(Emit(s3, Reset(s.generation)), Stopped(s.generation, "reset", frame)), Ok(None))
  }

  function DoQueries(w: World, s: Session, queries: seq<Query>): (Session, Outcome)
    decreases |queries|
  {
    if queries == [] then (s, Ok(None))
    else
      var (s1, answer) := Run(w, s, Inspection(queries[0].command), false, WantDone);
      if answer.Err? then (s1, Err(answer.error))
      else if queries[0].refusal.Some? then (s1, Err(DebugError(queries[0].refusal.value)))
      else DoQueries(w, s1, queries[1..])
  }

  function DoInspect(w: World, s: Session, badArgument: Option<Code>, queries: seq<Query>): (Session, Outcome) {
    if s.state != Halted then (s, Err(INVALID_STATE))
    else if badArgument.Some? then (s, Err(DebugError(badArgument.value)))
    else DoQueries(w, s, queries)
  }

  /** The authorisation names firmware.load and the probe of this session. */
  predicate Authorized(s: Session, authorization: string) {
    s.probe.Some? && authorization == "firmware.load:" + s.probe.value
  }

  /** The four answers a load needs, in order: the download, a verification that affirms, the reset, a frame. */
  predicate StepsSucceed(w: World, n: nat) {
    && Succeeds(w, n, WantDone)
    && Succeeds(w, n + 1, WantDone) && Verified(w.command(n + 1).value.records)
    && Succeeds(w, n + 2, WantDone)
    && Succeeds(w, n + 3, WantDone) && FindTuple(w.command(n + 3).value.results, "frame").Some?
  }

  /** Download, verify, reset: what an authorised load does. */
  function LoadSteps(w: World, s: Session): (r: (Session, Outcome))
    ensures r.0.calls > s.calls
    ensures r.1.Ok? <==> StepsSucceed(w, s.calls)
  {
    var (s1, download) := Run(w, Emit(s, Progress(s.generation, 0)), Download, false, WantDone);
    if download.Err? then (s1, Err(download.error))
    else
      var (s2, compare) := Run(w, s1, CompareSections, false, WantDone);
      if compare.Err? then (s2, Err(compare.error))
      else if !Verified(compare.value.records) then (s2, Err(DebugError(FIRMWARE_VERIFY_FAILED)))
      else
        var (s3, reset) := ResetAndConfirm(w, s2);
        if reset.Err? then (s3, Err(reset.error))
        else (Emit(Emit(s3, Progress(s.generation, 1)), Loaded(s.generation)), Ok(None))
  }

  function DoLoad(w: World, s: Session, authorization: string): (Session, Outcome) {
    if s.state != Halted then (s, Err(INVALID_STATE))
    else if s.probe.None? then (s, Err(DebugError(SESSION_PROBE_MISSING)))
    else if !Authorized(s, authorization) then (s, Err(Failure(Authorization, AUTHORIZATION_REJECTED)))
    else LoadSteps(w, s)
  }

  function DoPoll(w: World, s: Session): (Session, Outcome) {
    if s.state == Idle then (s, Ok(None))
    else
      var batch := w.batch(s.calls);
      var s1 := Issue(s, PollCall(batch));
      if batch.Err? then (s1, Err(batch.error))
      else
        var s2 := Capture(s1, batch.value);
        if s2.state == Running && Transport.HasStop(batch.value) then
          var (s3, r) := FinishStop(w, s2, batch.value, "unknown");
          (s3, if r.Err? then r else Ok(None))
        else (s2, Ok(None))
  }

  function DoStop(w: World, s: Session): (Session, Outcome) {
    if s.state == Idle then (s, Ok(None))
    else
      (Close(w, s, "requested"), match w.shutdown(s.calls) case Ok(_) => Ok(None) case Err(e) => Err(e))
  }

  function DoFail(w: World, s: Session, cause: Failure): Session {
    if s.state == Idle then s
    else Close(w, Emit(Transition(s, Failed), SessionError(s.generation, cause.code)), "error")
  }

  function DoCancel(w: World, s: Session, operation: string): Session {
    if s.state == Idle then s
    else Close(w, Emit(Transition(s, Cancelling), Cancelled(s.generation, operation)), "cancelled")
  }

  function Do(w: World, s: Session, op: Op): (Session, Outcome) {
    match op
    case Start(serial, port, elf) => DoStart(w, s, serial, port, elf)
    case Connect(serial, port, elf) => DoConnect(w, s, serial, port, elf)
    case Continue => DoContinue(w, s)
    case Halt => DoHalt(w, s)
    case WaitStopped => DoWait(w, s)
    case Step(over) => DoStep(w, s, over)
    case ResetHalt => DoResetHalt(w, s)
    case Inspect(badArgument, queries) => DoInspect(w, s, badArgument, queries)
    case Load(authorization) => DoLoad(w, s, authorization)
    case PollEvents => DoPoll(w, s)
    case Stop => DoStop(w, s)
    case Fail(cause) => (DoFail(w, s, cause), Ok(None))
    case Cancel(operation) => (DoCancel(w, s, operation), Ok(None))
  }

  /** Any sequence of operations, whatever each of them returns. */
  function DoAll(w: World, s: Session, ops: seq<Op>): Session
    decreases |ops|
  {
    if ops == [] then s else DoAll(w, Do(w, s, ops[0]).0, ops[1..])
  }
}
