/** `SessionEngine` of `session.rs`: the fields it updates in place, each operation proved against `SessionModel`. */
module SessionEngine {
  import opened Common
  import opened MiSyntax
  import opened SessionModel
  import Transport

  /** The events of a history. */
  function EventsOf(trace: seq<Entry>): seq<Event> {
    if trace == [] then []
    else
      var last := trace[|trace| - 1];
      EventsOf(trace[..|trace| - 1]) + (if last.Ev? then [last.event] else [])
  }

  lemma {:induction false} EventsOfOne(trace: seq<Entry>, entry: Entry)
    ensures EventsOf(trace + [entry]) == EventsOf(trace) + (if entry.Ev? then [entry.event] else [])
  {
    assert (trace + [entry])[..|trace|] == trace;
  }

  lemma {:induction false} CaptureOne(s: Session, records: seq<MiRecord>, i: nat)
    requires i < |records|
    ensures Capture(s, records[..i + 1]).trace ==
            Capture(s, records[..i]).trace + Captured(s.generation, records[i])
  {
    assert records[..i + 1][..i] == records[..i];
    var before := CapturedAll(s.generation, records[..i]);
    assert s.trace + (before + Captured(s.generation, records[i])) ==
           (s.trace + before) + Captured(s.generation, records[i]);
  }

  class SessionEngine {
    const world: World
    var state: State
    var generation: nat
    var probeSerial: Option<string>
    /** Events not yet taken. */
    var events: seq<Event>
    var calls: nat
    ghost var taken: seq<Event>
    ghost var trace: seq<Entry>

    constructor (world: World)
      ensures this.world == world && Valid() && Abs() == New() && events == []
    {
      this.world := world;
      state, generation, probeSerial, events, calls := Idle, 0, None, [], 0;
      taken, trace := [], [];
    }

    constructor WithStartedLifecycle(world: World, generation: nat)
      ensures this.world == world && Valid() && Abs() == Started(generation) && events == []
    {
      this.world := world;
      state, this.generation, probeSerial, events, calls := GdbStarting, generation, None, [], 0;
      taken, trace := [], [];
    }

    ghost function Abs(): Session
      reads this
    {
      Session(state, generation, probeSerial, calls, trace)
    }

    /** Every event is either taken or still to be taken, in order. */
    ghost predicate Valid()
      reads this
    {
      EventsOf(trace) == taken + events
    }

    method TakeEvents() returns (r: seq<Event>)
      requires Valid()
      modifies this`events, this`taken
      ensures Valid() && Abs() == old(Abs())
      ensures r == old(events) && events == [] && taken == old(taken) + r
    {
      r := events;
      taken := taken + events;
      events := [];
      assert taken + events == taken;
    }

    method Push(e: Event)
      requires Valid()
      modifies this`events, this`trace
      ensures Valid() && Abs() == Emit(old(Abs()), e)
      ensures taken == old(taken)
    {
      EventsOfOne(trace, Ev(e));
      assert taken + (events + [e]) == (taken + events) + [e];
      events := events + [e];
      trace := trace + [Ev(e)];
    }

    method Transition(next: State)
      requires Valid()
      modifies this`state, this`events, this`trace
      ensures Valid() && Abs() == SessionModel.Transition(old(Abs()), next)
      ensures taken == old(taken)
    {
      var previous := state;
      state := next;
      if generation > 0 {
        Push(StateChange(generation, previous, next));
      }
    }

    method Advance(next: State, e: Event)
      requires Valid()
      modifies this`state, this`events, this`trace
      ensures Valid() && Abs() == Emit(SessionModel.Transition(old(Abs()), next), e)
      ensures taken == old(taken)
    {
      Transition(next);
      Push(e);
    }

    ghost method Note(c: Call)
      requires Valid()
      modifies this`trace
      ensures Valid() && trace == old(trace) + [Ca(c)]
    {
      EventsOfOne(trace, Ca(c));
      trace := trace + [Ca(c)];
    }

    method CaptureRecords(records: seq<MiRecord>)
      requires Valid()
      modifies this`events, this`trace
      ensures Valid() && Abs() == Capture(old(Abs()), records)
      ensures taken == old(taken)
    {
      ghost var s := Abs();
      assert Capture(s, records[..0]).trace == s.trace;
      for i := 0 to |records|
        invariant Valid() && taken == old(taken)
        invariant Abs() == Capture(s, records[..i])
      {
        CaptureRecord(records[i]);
        CaptureOne(s, records, i);
      }
      assert records[..|records|] == records;
    }

    method CaptureRecord(record: MiRecord)
      requires Valid()
      modifies this`events, this`trace
      ensures Valid() && trace == old(trace) + Captured(generation, record)
      ensures taken == old(taken)
    {
      match record {
        case Target(text) => Push(TargetOutput(generation, text));
        case Console(text) => Push(LogLine(generation, "gdb", text));
        case Log(text) => Push(LogLine(generation, "gdb", text));
        case _ => assert trace + [] == trace;
      }
    }

    method RunCommand(command: MiCommand, wait: bool, want: Want) returns (r: Result<Output>)
      requires Valid()
      modifies this`calls, this`events, this`trace
      ensures Valid() && (Abs(), r) == Run(world, old(Abs()), command, wait, want)
      ensures taken == old(taken)
    {
      var reply := world.command(calls);
      Note(CommandCall(command, wait, reply));
      calls := calls + 1;
      if reply.Err? {
        return Err(reply.error);
      }
      CaptureRecords(reply.value.records);
      r := if Accepts(want, reply.value.resultClass) then reply else Err(CommandError(reply.value));
    }

    method ResetAndConfirmHalted() returns (r: Result<()>)
      requires Valid()
      modifies this`calls, this`events, this`trace
      ensures Valid() && (Abs(), r) == ResetAndConfirm(world, old(Abs()))
      ensures taken == old(taken)
    {
      var reset := RunCommand(ResetTarget, false, WantDone);
      if reset.Err? {
        return Err(reset.error);
      }
      var frame := RunCommand(FrameInfo, false, WantDone);
      if frame.Err? {
        return Err(frame.error);
      }
      r := if FindTuple(frame.value.results, "frame").None? then Err(DebugError(TARGET_HALT_UNCONFIRMED)) else Ok(());
    }

    method FinishStop(records: seq<MiRecord>, fallback: string) returns (r: Outcome)
      requires Valid()
      modifies this
      ensures Valid() && (Abs(), r) == SessionModel.FinishStop(world, old(Abs()), records, fallback)
      ensures taken == old(taken)
    {
      var details := StoppedDetails(records);
      var reason, frame := fallback, None;
      if details.Some? {
        reason, frame := details.value.0, details.value.1;
      }
      if state != Halted {
        Transition(Halted);
      }
      if frame.None? {
        var query := RunCommand(FrameInfo, false, WantDone);
        if query.Err? {
          Push(Stopped(generation, reason, None));
          return Err(query.error);
        }
        frame := FrameOf(query.value.results);
      }
      Push(Stopped(generation, reason, frame));
      r := Ok(frame);
    }

    method ConnectStarted(serial: string, port: nat, elf: Option<string>) returns (r: Outcome)
      requires Valid()
      modifies this
      ensures Valid() && (Abs(), r) == DoConnect(world, old(Abs()), serial, port, elf)
      ensures taken == old(taken)
    {
      if state != GdbStarting {
        return Err(INVALID_STATE);
      }
      if generation == 0 {
        return Err(DebugError(SESSION_GENERATION_INVALID));
      }
      if BadSerial(serial) {
        return Err(DebugError(PROBE_SERIAL_INVALID));
      }
      if elf.None? {
        return Err(DebugError(Other("FIRMWARE_PATH_INVALID")));
      }
      probeSerial := Some(serial);
      var async := RunCommand(MiAsync, false, WantDone);
      if async.Err? {
        return Err(async.error);
      }
      var symbols := RunCommand(Symbols(elf.value), false, WantDone);
      if symbols.Err? {
        return Err(symbols.error);
      }
      var target := RunCommand(SelectRemote(port), false, WantConnected);
      if target.Err? {
        return Err(target.error);
      }
      Transition(Connected);
      var reset := ResetAndConfirmHalted();
      if reset.Err? {
        return Err(reset.error);
      }
      Transition(Halted);
      Push(Stopped(generation, "reset", None));
      r := Ok(None);
    }

    method StartConnected(serial: string, port: nat, elf: Option<string>) returns (r: Outcome)
      requires Valid()
      modifies this
      ensures Valid() && (Abs(), r) == DoStart(world, old(Abs()), serial, port, elf)
      ensures taken == old(taken)
    {
      if state != Idle {
        return Err(INVALID_STATE);
      }
      if BadSerial(serial) {
        return Err(DebugError(PROBE_SERIAL_INVALID));
      }
      if elf.None? {
        return Err(DebugError(Other("FIRMWARE_PATH_INVALID")));
      }
      generation := Min(generation + 1, U64_MAX);
      probeSerial := Some(serial);
      Advance(ProbeSelected, ProbeChosen(generation, serial));
      Advance(ServerStarting, ServerStarted(generation));
      Advance(ServerReady, ServerIsReady(generation, port));
      Advance(GdbStarting, GdbStarted(generation));
      assert Abs() == Prepare(old(Abs()), serial, port);
      r := ConnectStarted(serial, port, elf);
    }

    method ContinueTarget() returns (r: Outcome)
      requires Valid()
      modifies this
      ensures Valid() && (Abs(), r) == DoContinue(world, old(Abs()))
      ensures taken == old(taken)
    {
      if state != Halted {
        return Err(INVALID_STATE);
      }
      var run := RunCommand(ExecContinue, false, WantRunning);
      if run.Err? {
        return Err(run.error);
      }
      Transition(Running);
      Push(TargetRunning(generation));
      if run.value.stoppedAfterCommand {
        var stop := FinishStop(run.value.records, "unknown");
        if stop.Err? {
          return stop;
        }
      }
      r := Ok(None);
    }

    method HaltTarget() returns (r: Outcome)
      requires Valid()
      modifies this
      ensures Valid() && (Abs(), r) == DoHalt(world, old(Abs()))
      ensures taken == old(taken)
    {
      if state != Running {
        return Err(INVALID_STATE);
      }
      var interrupt := RunCommand(Interrupt, true, WantDone);
      if interrupt.Err? {
        return Err(interrupt.error);
      }
      r := FinishStop(interrupt.value.records, "halt");
    }

    method WaitUntilStopped() returns (r: Outcome)
      requires Valid()
      modifies this
      ensures Valid() && (Abs(), r) == DoWait(world, old(Abs()))
      ensures taken == old(taken)
    {
      if state != Running {
        return Err(INVALID_STATE);
      }
      var batch := world.batch(calls);
      Note(WaitCall(batch));
      calls := calls + 1;
      if batch.Err? {
        return Err(batch.error);
      }
      CaptureRecords(batch.value);
      r := FinishStop(batch.value, "unknown");
    }

    /** `step` and `next_target`. */
    method ExecStepping(over: bool) returns (r: Outcome)
      requires Valid()
      modifies this
      ensures Valid() && (Abs(), r) == DoStep(world, old(Abs()), over)
      ensures taken == old(taken)
    {
      if state != Halted {
        return Err(INVALID_STATE);
      }
      var run := RunCommand(if over then ExecNext else ExecStep, true, WantRunning);
      if run.Err? {
        return Err(run.error);
      }
      Transition(Running);
      Push(TargetRunning(generation));
      var stopped := run.value;
      if !run.value.stoppedAfterCommand {
        var interrupt := RunCommand(Interrupt, true, WantDone);
        if interrupt.Err? {
          return Err(interrupt.error);
        }
        stopped := interrupt.value;
      }
      r := FinishStop(stopped.records, "step");
    }

    method ResetHaltTarget() returns (r: Outcome)
      requires Valid()
      modifies this
      ensures Valid() && (Abs(), r) == DoResetHalt(world, old(Abs()))
      ensures taken == old(taken)
    {
      if state != Halted && state != Running {
        return Err(INVALID_STATE);
      }
      var reset := RunCommand(ResetTarget, false, WantDone);
      if reset.Err? {
        return Err(reset.error);
      }
      if state == Running {
        Transition(Halted);
      }
      var query := RunCommand(FrameInfo, false, WantDone);
      if query.Err? {
        return Err(query.error);
      }
      var frame := FrameOf(query.value.results);
      if frame.None? {
        return Err(DebugError(TARGET_HALT_UNCONFIRMED));
      }
      Push(Reset(generation));
      Push(Stopped(generation, "reset", frame));
      r := Ok(None);
    }

    /** Breakpoint, stack, variable, register, memory and disassembly requests. */
    method InspectTarget(badArgument: Option<Code>, queries: seq<Query>) returns (r: Outcome)
      requires Valid()
      modifies this
      ensures Valid() && (Abs(), r) == DoInspect(world, old(Abs()), badArgument, queries)
      ensures taken == old(taken)
    {
      if state != Halted {
        return Err(INVALID_STATE);
      }
      if badArgument.Some? {
        return Err(DebugError(badArgument.value));
      }
      ghost var s := Abs();
      for i := 0 to |queries|
        invariant Valid() && taken == old(taken)
        invariant DoQueries(world, s, queries) == DoQueries(world, Abs(), queries[i..])
      {
        assert queries[i..][0] == queries[i] && queries[i..][1..] == queries[i + 1..];
        var answer := RunCommand(Inspection(queries[i].command), false, WantDone);
        if answer.Err? {
          return Err(answer.error);
        }
        if queries[i].refusal.Some? {
          return Err(DebugError(queries[i].refusal.value));
        }
      }
      r := Ok(None);
    }

    method LoadFirmware(authorization: string) returns (r: Outcome)
      requires Valid()
      modifies this
      ensures Valid() && (Abs(), r) == DoLoad(world, old(Abs()), authorization)
      ensures taken == old(taken)
    {
      if state != Halted {
        return Err(INVALID_STATE);
      }
      if probeSerial.None? {
        return Err(DebugError(SESSION_PROBE_MISSING));
      }
      if authorization != "firmware.load:" + probeSerial.value {
        return Err(Failure(Authorization, AUTHORIZATION_REJECTED));
      }
      assert DoLoad(world, Abs(), authorization) == LoadSteps(world, Abs());
      Push(Progress(generation, 0));
      var download := RunCommand(Download, false, WantDone);
      if download.Err? {
        return Err(download.error);
      }
      var compare := RunCommand(CompareSections, false, WantDone);
      if compare.Err? {
        return Err(compare.error);
      }
      if !Verified(compare.value.records) {
        return Err(DebugError(FIRMWARE_VERIFY_FAILED));
      }
      var reset := ResetAndConfirmHalted();
      if reset.Err? {
        return Err(reset.error);
      }
      Push(Progress(generation, 1));
      Push(Loaded(generation));
      r := Ok(None);
    }

    method PollTransport() returns (r: Outcome)
      requires Valid()
      modifies this
      ensures Valid() && (Abs(), r) == DoPoll(world, old(Abs()))
      ensures taken == old(taken)
    {
      if state == Idle {
        return Ok(None);
      }
      var batch := world.batch(calls);
      Note(PollCall(batch));
      calls := calls + 1;
      if batch.Err? {
        return Err(batch.error);
      }
      CaptureRecords(batch.value);
      if state == Running && Transport.HasStop(batch.value) {
        var stop := FinishStop(batch.value, "unknown");
        if stop.Err? {
          return stop;
        }
      }
      r := Ok(None);
    }

    method CloseTransport(reason: string) returns (r: Result<()>)
      requires Valid()
      modifies this
      ensures Valid() && Abs() == Close(world, old(Abs()), reason)
      ensures r == world.shutdown(old(calls))
      ensures taken == old(taken)
    {
      Transition(Disconnecting);
      ghost var s1 := Abs();
      r := world.shutdown(calls);
      Note(ShutdownCall(r));
      calls := calls + 1;
      ghost var s2 := Issue(s1, ShutdownCall(r));
      assert Abs() == s2;
      var g := generation;
      Transition(Idle);
      probeSerial := None;
      assert Abs() == SessionModel.Transition(s2, Idle).(probe := None);
      Push(SessionStopped(g, reason));
    }

    method StopSession() returns (r: Outcome)
      requires Valid()
      modifies this
      ensures Valid() && (Abs(), r) == DoStop(world, old(Abs()))
      ensures taken == old(taken)
    {
      if state == Idle {
        return Ok(None);
      }
      var closed := CloseTransport("requested");
      r := match closed case Ok(_) => Ok(None) case Err(e) => Err(e);
    }

    method FailAndCleanup(cause: Failure)
      requires Valid()
      modifies this
      ensures Valid() && Abs() == DoFail(world, old(Abs()), cause)
      ensures taken == old(taken)
    {
      if state != Idle {
        Transition(Failed);
        Push(SessionError(generation, cause.code));
        var ignored := CloseTransport("error");
      }
    }

    method CancelSession(operation: string)
      requires Valid()
      modifies this
      ensures Valid() && Abs() == DoCancel(world, old(Abs()), operation)
      ensures taken == old(taken)
    {
      if state != Idle {
        Transition(Cancelling);
        Push(Cancelled(generation, operation));
        var ignored := CloseTransport("cancelled");
      }
    }

    /** Any public operation. */
    method Perform(op: Op) returns (r: Outcome)
      requires Valid()
      modifies this
      ensures Valid() && (Abs(), r) == Do(world, old(Abs()), op)
      ensures taken == old(taken)
    {
      match op {
        case Start(serial, port, elf) => r := StartConnected(serial, port, elf);
        case Connect(serial, port, elf) => r := ConnectStarted(serial, port, elf);
        case Continue => r := ContinueTarget();
        case Halt => r := HaltTarget();
        case WaitStopped => r := WaitUntilStopped();
        case Step(over) => r := ExecStepping(over);
        case ResetHalt => r := ResetHaltTarget();
        case Inspect(badArgument, queries) => r := InspectTarget(badArgument, queries);
        case Load(authorization) => r := LoadFirmware(authorization);
        case PollEvents => r := PollTransport();
        case Stop => r := StopSession();
        case Fail(cause) =>
          FailAndCleanup(cause);
          r := Ok(None);
        case Cancel(operation) =>
          CancelSession(operation);
          r := Ok(None);
      }
    }
  }
}
