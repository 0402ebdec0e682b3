/** Over whole runs of the engine, every entry into Halted is announced by one Stopped event, except around
    reset-halts. */
module StopBalance {
  import opened Common
  import opened MiSyntax
  import opened SessionModel
  import opened SessionRuns
  import Transport

  /** What an entry of the history adds to the halts that are not announced: one for a change into Halted, minus one
      for a Stopped event. */
  function Weight(entry: Entry): int {
    match entry
    case Ev(StateChange(_, _, current)) => if current == Halted then 1 else 0
    case Ev(Stopped(_, _, _)) => -1
    case _ => 0
  }

  /** Changes into Halted less Stopped events. */
  function Unannounced(trace: seq<Entry>): int {
    if trace == [] then 0 else Unannounced(trace[..|trace| - 1]) + Weight(trace[|trace| - 1])
  }

  lemma {:induction false} One(trace: seq<Entry>, entry: Entry)
    ensures Unannounced(trace + [entry]) == Unannounced(trace) + Weight(entry)
  {
    assert (trace + [entry])[..|trace|] == trace;
  }

  lemma {:induction false} CaptureBalance(trace: seq<Entry>, generation: nat, records: seq<MiRecord>)
    ensures Unannounced(trace + CapturedAll(generation, records)) == Unannounced(trace)
  {
    if records == [] {
      AppendEmpty(trace);
    } else {
      var n := |records| - 1;
      var before, last := CapturedAll(generation, records[..n]), Captured(generation, records[n]);
      CaptureBalance(trace, generation, records[..n]);
      CapturedWeight(generation, records[n]);
      hide Captured;
      hide Unannounced;
      AppendAssociates(trace, before, last);
      if last == [] {
        AppendEmpty(trace + before);
      } else {
        One(trace + before, last[0]);
      }
    }
  }

  lemma CapturedWeight(generation: nat, record: MiRecord)
    ensures var c := Captured(generation, record); c == [] || (c == [c[0]] && Weight(c[0]) == 0)
  {}

  /** The balance after some steps, from the balance before. */
  predicate Shifts(s: Session, s': Session, shift: int) {
    Unannounced(s'.trace) == Unannounced(s.trace) + shift
  }

  lemma {:induction false} RunBalance(w: World, s: Session, command: MiCommand, wait: bool, want: Want)
    ensures Shifts(s, Run(w, s, command, wait, want).0, 0)
  {
    var reply := w.command(s.calls);
    One(s.trace, Ca(CommandCall(command, wait, reply)));
    if reply.Ok? {
      CaptureBalance(s.trace + [Ca(CommandCall(command, wait, reply))], s.generation, reply.value.records);
    }
  }

  lemma {:induction false} BatchBalance(s: Session, call: Call)
    requires call.WaitCall? || call.PollCall?
    ensures Shifts(s, Issue(s, call), 0)
    ensures call.batch.Ok? ==> Shifts(s, Capture(Issue(s, call), call.batch.value), 0)
  {
    One(s.trace, Ca(call));
    if call.batch.Ok? {
      CaptureBalance(s.trace + [Ca(call)], s.generation, call.batch.value);
    }
  }

  lemma {:induction false} EmitBalance(s: Session, e: Event)
    ensures Shifts(s, Emit(s, e), Weight(Ev(e)))
  {
    One(s.trace, Ev(e));
  }

  lemma {:induction false} MoveBalance(s: Session, next: State)
    ensures Shifts(s, Transition(s, next), if s.generation > 0 && next == Halted then 1 else 0)
  {
    One(s.trace, Ev(StateChange(s.generation, s.state, next)));
  }

  lemma {:induction false} FinishBalance(w: World, s: Session, records: seq<MiRecord>, fallback: string)
    requires s.state == Running && s.generation > 0
    ensures Shifts(s, FinishStop(w, s, records, fallback).0, 0)
  {
    hide Run;
    hide StopReason;
    hide Unannounced;
    var s1 := Transition(s, Halted);
    MoveBalance(s, Halted);
    RunBalance(w, s1, FrameInfo, false, WantDone);
    var s2 := Run(w, s1, FrameInfo, false, WantDone).0;
    forall reason: string, frame: Option<StackFrame>
      ensures Shifts(s1, Emit(s1, Stopped(s.generation, reason, frame)), -1)
      ensures Shifts(s2, Emit(s2, Stopped(s.generation, reason, frame)), -1)
    {
      EmitBalance(s1, Stopped(s.generation, reason, frame));
      EmitBalance(s2, Stopped(s.generation, reason, frame));
    }
  }

  lemma {:induction false} CloseBalance(w: World, s: Session, reason: string)
    ensures Shifts(s, Close(w, s, reason), 0)
  {
    hide Unannounced;
    var s1 := Transition(s, Disconnecting);
    MoveBalance(s, Disconnecting);
    var shut := ShutdownCall(w.shutdown(s1.calls));
    One(s1.trace, Ca(shut));
    var s2 := Issue(s1, shut);
    MoveBalance(s2, Idle);
    var s3 := Transition(s2, Idle);
    EmitBalance(s3.(probe := None), SessionStopped(s.generation, reason));
  }

  lemma {:induction false} CleanupBalance(w: World, s: Session, cause: Failure, operation: string)
    ensures Shifts(s, DoFail(w, s, cause), 0) && Shifts(s, DoCancel(w, s, operation), 0)
    ensures Shifts(s, DoStop(w, s).0, 0)
  {
    hide Close;
    hide Unannounced;
    var failed, cancelling := Transition(s, Failed), Transition(s, Cancelling);
    MoveBalance(s, Failed);
    MoveBalance(s, Cancelling);
    EmitBalance(failed, SessionError(s.generation, cause.code));
    EmitBalance(cancelling, Cancelled(s.generation, operation));
    CloseBalance(w, s, "requested");
    CloseBalance(w, Emit(failed, SessionError(s.generation, cause.code)), "error");
    CloseBalance(w, Emit(cancelling, Cancelled(s.generation, operation)), "cancelled");
  }

  lemma {:induction false} ConfirmBalance(w: World, s: Session)
    ensures Shifts(s, ResetAndConfirm(w, s).0, 0)
  {
    hide Run;
    hide Unannounced;
    RunBalance(w, s, ResetTarget, false, WantDone);
    var s1 := Run(w, s, ResetTarget, false, WantDone).0;
    RunBalance(w, s1, FrameInfo, false, WantDone);
  }

  lemma {:induction false} ConnectBalance(
    w: World, s: Session, serial: string, port: nat, elf: Option<string>)
    ensures Shifts(s, DoConnect(w, s, serial, port, elf).0, 0)
  {
    hide ResetAndConfirm;
    hide BadSerial;
    hide Run;
    hide Unannounced;
    if s.state == GdbStarting && s.generation > 0 && !BadSerial(serial) && elf.Some? {
      var s0 := s.(probe := Some(serial));
      RunBalance(w, s0, MiAsync, false, WantDone);
      var s1 := Run(w, s0, MiAsync, false, WantDone).0;
      RunBalance(w, s1, Symbols(elf.value), false, WantDone);
      var s2 := Run(w, s1, Symbols(elf.value), false, WantDone).0;
      RunBalance(w, s2, SelectRemote(port), false, WantConnected);
      var s3 := Run(w, s2, SelectRemote(port), false, WantConnected).0;
      MoveBalance(s3, Connected);
      ConfirmBalance(w, Transition(s3, Connected));
      var s4 := ResetAndConfirm(w, Transition(s3, Connected)).0;
      MoveBalance(s4, Halted);
      EmitBalance(Transition(s4, Halted), Stopped(s.generation, "reset", None));
    }
  }

  lemma {:induction false} PrepareBalance(s: Session, serial: string, port: nat)
    ensures Shifts(s, Prepare(s, serial, port), 0)
  {
    hide Transition;
    hide Unannounced;
    var s0 := s.(generation := Min(s.generation + 1, U64_MAX), probe := Some(serial));
    var g := s0.generation;
    PassBalance(s0, ProbeSelected, ProbeChosen(g, serial));
    var s1 := Emit(Transition(s0, ProbeSelected), ProbeChosen(g, serial));
    PassBalance(s1, ServerStarting, ServerStarted(g));
    var s2 := Emit(Transition(s1, ServerStarting), ServerStarted(g));
    PassBalance(s2, ServerReady, ServerIsReady(g, port));
    var s3 := Emit(Transition(s2, ServerReady), ServerIsReady(g, port));
    PassBalance(s3, GdbStarting, GdbStarted(g));
  }

  lemma {:induction false} PassBalance(s: Session, next: State, e: Event)
    requires next != Halted && Weight(Ev(e)) == 0
    ensures Shifts(s, Emit(Transition(s, next), e), 0)
  {
    hide Unannounced;
    MoveBalance(s, next);
    EmitBalance(Transition(s, next), e);
  }

  lemma {:induction false} ContinueBalance(w: World, s: Session)
    requires s.state == Halted ==> s.generation > 0
    ensures Shifts(s, DoContinue(w, s).0, 0)
  {
    hide FinishStop;
    hide Run;
    hide Unannounced;
    RunBalance(w, s, ExecContinue, false, WantRunning);
    var (s1, run) := Run(w, s, ExecContinue, false, WantRunning);
    PassBalance(s1, Running, TargetRunning(s.generation));
    if s.state == Halted && run.Ok? {
      FinishBalance(w, Emit(Transition(s1, Running), TargetRunning(s.generation)), run.value.records, "unknown");
    }
  }

  lemma {:induction false} StepBalance(w: World, s: Session, over: bool)
    requires s.state == Halted ==> s.generation > 0
    ensures Shifts(s, DoStep(w, s, over).0, 0)
  {
    hide FinishStop;
    hide Run;
    hide Unannounced;
    var command := if over then ExecNext else ExecStep;
    RunBalance(w, s, command, true, WantRunning);
    var (s1, run) := Run(w, s, command, true, WantRunning);
    PassBalance(s1, Running, TargetRunning(s.generation));
    var s2 := Emit(Transition(s1, Running), TargetRunning(s.generation));
    RunBalance(w, s2, Interrupt, true, WantDone);
    var (s3, interrupt) := Run(w, s2, Interrupt, true, WantDone);
    if s.state == Halted && run.Ok? {
      FinishBalance(w, s2, run.value.records, "step");
      if interrupt.Ok? {
        FinishBalance(w, s3, interrupt.value.records, "step");
      }
    }
  }

  lemma {:induction false} StopOpsBalance(w: World, s: Session)
    requires s.state == Running ==> s.generation > 0
    ensures Shifts(s, DoHalt(w, s).0, 0) && Shifts(s, DoWait(w, s).0, 0) && Shifts(s, DoPoll(w, s).0, 0)
  {
    hide FinishStop;
    hide Run;
    hide Unannounced;
    RunBalance(w, s, Interrupt, true, WantDone);
    var (s1, interrupt) := Run(w, s, Interrupt, true, WantDone);
    var batch := w.batch(s.calls);
    BatchBalance(s, WaitCall(batch));
    BatchBalance(s, PollCall(batch));
    if s.state == Running {
      if interrupt.Ok? {
        FinishBalance(w, s1, interrupt.value.records, "halt");
      }
      if batch.Ok? {
        FinishBalance(w, Capture(Issue(s, WaitCall(batch)), batch.value), batch.value, "unknown");
        FinishBalance(w, Capture(Issue(s, PollCall(batch)), batch.value), batch.value, "unknown");
      }
    }
  }

  /** The reset is accepted, and a frame confirmed. */
  predicate ResetTaken(w: World, n: nat) {
    Succeeds(w, n, WantDone)
  }

  predicate ResetConfirmed(w: World, n: nat) {
    Succeeds(w, n, WantDone) && Succeeds(w, n + 1, WantDone) && FrameOf(w.command(n + 1).value.results).Some?
  }

  /** What a reset-halt does to the balance: a running target that is halted without a confirmed frame is not announced;
      a halted one whose frame is confirmed is announced again. */
  function ResetShift(w: World, s: Session): int {
    if s.state == Running && ResetTaken(w, s.calls) && !ResetConfirmed(w, s.calls) then 1
    else if s.state == Halted && ResetConfirmed(w, s.calls) then -1
    else 0
  }

  lemma {:induction false} ResetBalance(w: World, s: Session)
    requires s.state == Running ==> s.generation > 0
    ensures Shifts(s, DoResetHalt(w, s).0, ResetShift(w, s))
  {
    hide FrameOf;
    hide Run;
    hide Unannounced;
    RunBalance(w, s, ResetTarget, false, WantDone);
    var (s1, reset) := Run(w, s, ResetTarget, false, WantDone);
    MoveBalance(s1, Halted);
    var s2 := if s1.state == Running then Transition(s1, Halted) else s1;
    RunBalance(w, s2, FrameInfo, false, WantDone);
    var (s3, query) := Run(w, s2, FrameInfo, false, WantDone);
    EmitBalance(s3, Reset(s.generation));
    if query.Ok? {
      EmitBalance(Emit(s3, Reset(s.generation)), Stopped(s.generation, "reset", FrameOf(query.value.results)));
    }
  }

  lemma {:induction false} QueriesBalance(w: World, s: Session, queries: seq<Query>)
    ensures Shifts(s, DoQueries(w, s, queries).0, 0)
    decreases |queries|
  {
    hide Run;
    hide Unannounced;
    if queries != [] {
      RunBalance(w, s, Inspection(queries[0].command), false, WantDone);
      QueriesBalance(w, Run(w, s, Inspection(queries[0].command), false, WantDone).0, queries[1..]);
    }
  }

  lemma {:induction false} LoadBalance(w: World, s: Session)
    ensures Shifts(s, LoadSteps(w, s).0, 0)
  {
    hide ResetAndConfirm;
    hide Run;
    hide Verified;
    hide Unannounced;
    var s0 := Emit(s, Progress(s.generation, 0));
    EmitBalance(s, Progress(s.generation, 0));
    RunBalance(w, s0, Download, false, WantDone);
    var s1 := Run(w, s0, Download, false, WantDone).0;
    RunBalance(w, s1, CompareSections, false, WantDone);
    var s2 := Run(w, s1, CompareSections, false, WantDone).0;
    ConfirmBalance(w, s2);
    var s3 := ResetAndConfirm(w, s2).0;
    EmitBalance(s3, Progress(s.generation, 1));
    EmitBalance(Emit(s3, Progress(s.generation, 1)), Loaded(s.generation));
  }

  /** What an operation does to the balance: nothing, unless it is a reset-halt. */
  function Shift(w: World, s: Session, op: Op): int {
    if op.ResetHalt? then ResetShift(w, s) else 0
  }

  lemma {:induction false} OpBalance(w: World, s: Session, op: Op)
    requires s.state == Halted || s.state == Running ==> s.generation > 0
    ensures Shifts(s, Do(w, s, op).0, Shift(w, s, op))
  {
    hide Unannounced;
    match op {
      case Start(serial, port, elf) =>
        PrepareBalance(s, serial, port);
        ConnectBalance(w, Prepare(s, serial, port), serial, port, elf);
      case Connect(serial, port, elf) => ConnectBalance(w, s, serial, port, elf);
      case Continue => ContinueBalance(w, s);
      case Halt => StopOpsBalance(w, s);
      case WaitStopped => StopOpsBalance(w, s);
      case Step(over) => StepBalance(w, s, over);
      case ResetHalt => ResetBalance(w, s);
      case Inspect(_, queries) => QueriesBalance(w, s, queries);
      case Load(_) => LoadBalance(w, s);
      case PollEvents => StopOpsBalance(w, s);
      case Stop => CleanupBalance(w, s, INVALID_STATE, "");
      case Fail(cause) => CleanupBalance(w, s, cause, "");
      case Cancel(operation) => CleanupBalance(w, s, INVALID_STATE, operation);
    }
  }

  function Shifted(w: World, s: Session, ops: seq<Op>): int
    decreases |ops|
  {
    if ops == [] then 0 else Shift(w, s, ops[0]) + Shifted(w, Do(w, s, ops[0]).0, ops[1..])
  }

  predicate NoReset(ops: seq<Op>) {
    forall i :: 0 <= i < |ops| ==> !ops[i].ResetHalt?
  }

  /** In every run from a state that a run can reach, the changes into Halted and the Stopped events balance, except for
      the reset-halts: plus one for each that halted a running target unconfirmed, minus one for each that confirmed a
      halted one. Without reset-halts every halt is announced exactly once and nothing else is. */
  lemma {:induction false} StopsBalance(w: World, s: Session, ops: seq<Op>, from: Option<State>)
    requires Inv(s, from)
    ensures Shifts(s, DoAll(w, s, ops), Shifted(w, s, ops))
    ensures NoReset(ops) ==> Shifts(s, DoAll(w, s, ops), 0)
    decreases |ops|
  {
    if ops != [] {
      var s1 := Do(w, s, ops[0]).0;
      OpBalance(w, s, ops[0]);
      OpKeeps(w, s, ops[0], from);
      hide Unannounced;
      hide Do;
      hide ResetShift;
      StopsBalance(w, s1, ops[1..], from);
      if NoReset(ops) {
        assert !ops[0].ResetHalt? && NoReset(ops[1..]);
      }
    }
  }

  /** From a new engine: as many Stopped events as changes into Halted, but for the reset-halts. */
  lemma {:induction false} EveryHaltIsAnnounced(w: World, ops: seq<Op>)
    ensures Unannounced(DoAll(w, New(), ops).trace) == Shifted(w, New(), ops)
    ensures NoReset(ops) ==> Unannounced(DoAll(w, New(), ops).trace) == 0
  {
    StopsBalance(w, New(), ops, Some(Idle));
    hide DoAll;
  }
}
