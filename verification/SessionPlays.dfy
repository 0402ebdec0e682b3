/** Every operation of the engine plays its script. */
module SessionPlays {
  import opened Common
  import opened MiSyntax
  import opened SessionModel
  import opened SessionAnswers
  import opened SessionScripts
  import Runs = SessionRuns
  import Transport

  lemma {:induction false} ReturnPlays(w: World, s: Session, frame: Option<StackFrame>)
    ensures Plays(w, s, Return(frame), s, Ok(frame))
  {
    Done(w, s, Ok(frame));
  }

  lemma {:induction false} RefusePlays(w: World, s: Session, e: Failure)
    ensures Plays(w, s, Refuse(e), s, Err(e))
  {
    Done(w, s, Err(e));
  }

  lemma {:induction false} AnnouncePlays(w: World, s: Session, records: seq<MiRecord>, fallback: string, keep: bool)
    requires s.state == Running && s.generation > 0
    ensures var (s', r) := FinishStop(w, s, records, fallback);
            Plays(w, s, Announce(w, s.calls, s.generation, records, fallback, keep), s',
                  if r.Ok? && !keep then Ok(None) else r)
  {
    hide Plays;
    hide Run;
    hide StoppedDetails;
    hide FrameOf;
    var g := s.generation;
    var (s', r) := FinishStop(w, s, records, fallback);
    var out := if r.Ok? && !keep then Ok(None) else r;
    var details := StoppedDetails(records);
    var reason := if details.Some? then details.value.0 else fallback;
    var known := if details.Some? then details.value.1 else None;
    var s1 := Transition(s, Halted);
    if known.Some? {
      var end := Return(if keep then known else None);
      ReturnPlays(w, s', if keep then known else None);
      TellPlays(w, s1, Stopped(g, reason, known), end, s', out);
      EnterPlays(w, s, Halted, Tell(Stopped(g, reason, known), end), s', out);
    } else {
      var (s2, query) := Run(w, s1, FrameInfo, false, WantDone);
      RunAnswers(w, s1, FrameInfo, false, WantDone);
      var asked := FrameOf(Results(w, s.calls));
      var end := Return(if keep then asked else None);
      var telling := Tell(Stopped(g, reason, asked), end);
      if query.Ok? {
        ReturnPlays(w, s', if keep then asked else None);
        TellPlays(w, s2, Stopped(g, reason, asked), end, s', out);
      }
      AskPlays(w, s1, FrameInfo, false, WantDone, Some(Stopped(g, reason, None)), telling, s', out);
      EnterPlays(w, s, Halted, Ask("-stack-info-frame", false, DONE, Some(Stopped(g, reason, None)), telling), s', out);
    }
  }

  /** `ResetAndConfirm` asks for the reset and the frame, then goes on. */
  lemma {:induction false} ConfirmPlays(w: World, s: Session, next: Script, s': Session, r: Outcome)
    requires var (s1, reset) := ResetAndConfirm(w, s);
             if reset.Ok? then Plays(w, s1, next, s', r) else s' == s1 && r == Err(reset.error)
    ensures Plays(w, s, Confirm(w, s.calls, next), s', r)
  {
    hide Plays;
    hide Run;
    hide CommandText;
    hide ConsoleLine;
    var (s1, reset) := Run(w, s, ResetTarget, false, WantDone);
    var (s2, frame) := Run(w, s1, FrameInfo, false, WantDone);
    RunAnswers(w, s1, FrameInfo, false, WantDone);
    var results := Results(w, s.calls + 1);
    FoundIff(results, "frame", "");
    hide FindTuple;
    hide HasTuple;
    var rest := if HasTuple(results, "frame") then next else Refuse(DebugError(TARGET_HALT_UNCONFIRMED));
    if reset.Ok? {
      if frame.Ok? && !HasTuple(results, "frame") {
        RefusePlays(w, s2, DebugError(TARGET_HALT_UNCONFIRMED));
      }
      AskPlays(w, s1, FrameInfo, false, WantDone, None, rest, s', r);
    }
    Lines();
    AskPlays(w, s, ResetTarget, false, WantDone, None, Ask("-stack-info-frame", false, DONE, None, rest), s', r);
  }

  lemma {:induction false} ConnectedPlays(w: World, s: Session)
    requires s.state == Connected && s.generation > 0
    ensures var (s1, reset) := ResetAndConfirm(w, s);
            var g := s.generation;
            var end := Enter(g, Connected, Halted, Tell(Stopped(g, "reset", None), Return(None)));
            if reset.Ok? then
              var s' := Emit(Transition(s1, Halted), Stopped(g, "reset", None));
              Plays(w, s, Confirm(w, s.calls, end), s', Ok(None))
            else Plays(w, s, Confirm(w, s.calls, end), s1, Err(reset.error))
  {
    hide Plays;
    var (s1, reset) := ResetAndConfirm(w, s);
    hide ResetAndConfirm;
    hide Confirm;
    var g := s.generation;
    var told := Tell(Stopped(g, "reset", None), Return(None));
    var end := Enter(g, Connected, Halted, told);
    if reset.Ok? {
      var s2 := Transition(s1, Halted);
      var s' := Emit(s2, Stopped(g, "reset", None));
      ReturnPlays(w, s', None);
      TellPlays(w, s2, Stopped(g, "reset", None), Return(None), s', Ok(None));
      EnterPlays(w, s1, Halted, told, s', Ok(None));
      ConfirmPlays(w, s, end, s', Ok(None));
    } else {
      ConfirmPlays(w, s, end, s1, Err(reset.error));
    }
  }

  lemma {:induction false} ConnectPlays(w: World, s: Session, serial: string, port: nat, elf: Option<string>)
    requires s.state == GdbStarting && s.generation > 0 && !BadSerial(serial) && elf.Some?
    ensures var (s', r) := DoConnect(w, s, serial, port, elf);
            Plays(w, s, Connecting(w, s.calls, s.generation, port, elf.value), s', r)
  {
    hide Plays;
    hide Run;
    hide BadSerial;
    hide ResetAndConfirm;
    hide Confirm;
    var (s', r) := DoConnect(w, s, serial, port, elf);
    var s0 := s.(probe := Some(serial));
    var (s1, async) := Run(w, s0, MiAsync, false, WantDone);
    var (s2, symbols) := Run(w, s1, Symbols(elf.value), false, WantDone);
    var (s3, target) := Run(w, s2, SelectRemote(port), false, WantConnected);
    var g := s.generation;
    var confirm := Confirm(w, s.calls + 3, Enter(g, Connected, Halted, Tell(Stopped(g, "reset", None), Return(None))));
    if async.Ok? && symbols.Ok? && target.Ok? {
      var s4 := Transition(s3, Connected);
      ConnectedPlays(w, s4);
      EnterPlays(w, s3, Connected, confirm, s', r);
    }
    var entering := Enter(g, GdbStarting, Connected, confirm);
    if async.Ok? && symbols.Ok? {
      AskPlays(w, s2, SelectRemote(port), false, WantConnected, None, entering, s', r);
    }
    var selecting := Ask(CommandText(SelectRemote(port)), false, {"connected", "done"}, None, entering);
    if async.Ok? {
      AskPlays(w, s1, Symbols(elf.value), false, WantDone, None, selecting, s', r);
    }
    var symbolling := Ask(CommandText(Symbols(elf.value)), false, DONE, None, selecting);
    AskPlays(w, s0, MiAsync, false, WantDone, None, symbolling, s', r);
    SamePlays(w, s0, s, Ask("-gdb-set mi-async on", false, DONE, None, symbolling), s', r);
  }

  lemma SamePlays(w: World, s0: Session, s: Session, script: Script, s': Session, r: Outcome)
    requires s0 == s.(probe := s0.probe, generation := s0.generation) && Plays(w, s0, script, s', r)
    ensures Plays(w, s, script, s', r)
  {}

  lemma {:induction false} AdvancePlays(
    w: World, s: Session, to: State, e: Event, next: Script, s': Session, r: Outcome)
    requires OfOutline(e) && s.generation > 0 && Plays(w, Emit(Transition(s, to), e), next, s', r)
    ensures Plays(w, s, Enter(s.generation, s.state, to, Tell(e, next)), s', r)
  {
    hide Plays;
    TellPlays(w, Transition(s, to), e, next, s', r);
    EnterPlays(w, s, to, Tell(e, next), s', r);
  }

  /** The rest of a start, once the session has its new generation. */
  lemma {:induction false} PreparePlays(
    w: World, s: Session, serial: string, port: nat, next: Script, s': Session, r: Outcome)
    requires s.state == Idle && Plays(w, Prepare(s, serial, port), next, s', r)
    ensures Plays(w, s, Starting(Min(s.generation + 1, U64_MAX), serial, port, next), s', r)
  {
    hide Plays;
    var g := Min(s.generation + 1, U64_MAX);
    var s0 := s.(generation := g, probe := Some(serial));
    var s1 := Emit(Transition(s0, ProbeSelected), ProbeChosen(g, serial));
    var s2 := Emit(Transition(s1, ServerStarting), ServerStarted(g));
    var s3 := Emit(Transition(s2, ServerReady), ServerIsReady(g, port));
    AdvancePlays(w, s3, GdbStarting, GdbStarted(g), next, s', r);
    var n1 := Enter(g, ServerReady, GdbStarting, Tell(GdbStarted(g), next));
    AdvancePlays(w, s2, ServerReady, ServerIsReady(g, port), n1, s', r);
    var n2 := Enter(g, ServerStarting, ServerReady, Tell(ServerIsReady(g, port), n1));
    AdvancePlays(w, s1, ServerStarting, ServerStarted(g), n2, s', r);
    var n3 := Enter(g, ProbeSelected, ServerStarting, Tell(ServerStarted(g), n2));
    AdvancePlays(w, s0, ProbeSelected, ProbeChosen(g, serial), n3, s', r);
    SamePlays(w, s0, s, Starting(g, serial, port, next), s', r);
  }

  lemma SerialOkIff(serial: string)
    ensures SerialOk(serial) <==> !BadSerial(serial)
  {}

  lemma {:induction false} StartPlays(w: World, s: Session, serial: string, port: nat, elf: Option<string>)
    ensures var (s', r) := DoStart(w, s, serial, port, elf);
            Plays(w, s, ScriptOf(w, s, Start(serial, port, elf)), s', r)
  {
    hide Plays;
    hide DoConnect;
    hide Connecting;
    hide Starting;
    SerialOkIff(serial);
    hide BadSerial;
    var (s', r) := DoStart(w, s, serial, port, elf);
    if s.state == Idle && !BadSerial(serial) && elf.Some? {
      var ready := Prepare(s, serial, port);
      ConnectPlays(w, ready, serial, port, elf);
      PreparePlays(w, s, serial, port, Connecting(w, s.calls, ready.generation, port, elf.value), s', r);
    } else {
      RefusePlays(w, s, r.error);
    }
  }

  lemma {:induction false} ResumePlays(w: World, s: Session, next: Script, s': Session, r: Outcome)
    requires s.state == Halted && s.generation > 0
    requires Plays(w, Emit(Transition(s, Running), TargetRunning(s.generation)), next, s', r)
    ensures Plays(w, s, Resume(s.generation, next), s', r)
  {
    AdvancePlays(w, s, Running, TargetRunning(s.generation), next, s', r);
  }

  lemma {:induction false} ContinuePlays(w: World, s: Session)
    requires s.state == Halted && s.generation > 0
    ensures var (s', r) := DoContinue(w, s); Plays(w, s, ScriptOf(w, s, Continue), s', r)
  {
    hide Plays;
    hide Run;
    hide FinishStop;
    hide Announce;
    hide Resume;
    var n, g := s.calls, s.generation;
    var (s', r) := DoContinue(w, s);
    var (s1, run) := Run(w, s, ExecContinue, false, WantRunning);
    RunAnswers(w, s, ExecContinue, false, WantRunning);
    var next := if StopSeen(w, n) then Announce(w, n + 1, g, Records(w, n), "unknown", false) else Return(None);
    if run.Ok? {
      var s2 := Emit(Transition(s1, Running), TargetRunning(g));
      if StopSeen(w, n) {
        AnnouncePlays(w, s2, Records(w, n), "unknown", false);
      } else {
        ReturnPlays(w, s2, None);
      }
      ResumePlays(w, s1, next, s', r);
    }
    AskPlays(w, s, ExecContinue, false, WantRunning, None, Resume(g, next), s', r);
  }

  lemma {:induction false} HaltPlays(w: World, s: Session)
    requires s.state == Running && s.generation > 0
    ensures var (s', r) := DoHalt(w, s); Plays(w, s, ScriptOf(w, s, Halt), s', r)
  {
    hide Plays;
    hide Run;
    hide FinishStop;
    hide Announce;
    InterruptPlays(w, s, "halt");
    RunAnswers(w, s, Interrupt, true, WantDone);
  }

  /** An interruption whose answer's stop is then told. */
  lemma {:induction false} InterruptPlays(w: World, s: Session, fallback: string)
    requires s.state == Running && s.generation > 0
    ensures var (s1, interrupt) := Run(w, s, Interrupt, true, WantDone);
            var (s', r) := if interrupt.Err? then (s1, Err(interrupt.error))
                           else FinishStop(w, s1, interrupt.value.records, fallback);
            var told := Announce(w, s.calls + 1, s.generation, Records(w, s.calls), fallback, true);
            Plays(w, s, Ask("-exec-interrupt --all", true, DONE, None, told), s', r)
  {
    hide Plays;
    hide Run;
    hide FinishStop;
    hide Announce;
    var (s1, interrupt) := Run(w, s, Interrupt, true, WantDone);
    RunAnswers(w, s, Interrupt, true, WantDone);
    var records := Records(w, s.calls);
    var told := Announce(w, s.calls + 1, s.generation, records, fallback, true);
    if interrupt.Ok? {
      AnnouncePlays(w, s1, records, fallback, true);
      var (s', r) := FinishStop(w, s1, records, fallback);
      AskPlays(w, s, Interrupt, true, WantDone, None, told, s', r);
    } else {
      AskPlays(w, s, Interrupt, true, WantDone, None, told, s1, Err(interrupt.error));
    }
  }

  lemma {:induction false} WaitPlays(w: World, s: Session)
    requires s.state == Running && s.generation > 0
    ensures var (s', r) := DoWait(w, s); Plays(w, s, ScriptOf(w, s, WaitStopped), s', r)
  {
    hide Plays;
    hide FinishStop;
    hide Announce;
    hide Capture;
    var batch := w.batch(s.calls);
    var records := if batch.Ok? then batch.value else [];
    var (s', r) := DoWait(w, s);
    var s1 := Issue(s, WaitCall(batch));
    if batch.Ok? {
      CaptureStays(s1, records);
      AnnouncePlays(w, Capture(s1, records), records, "unknown", true);
    }
    TakePlays(w, s, true, Announce(w, s.calls + 1, s.generation, records, "unknown", true), s1, s', r);
  }

  lemma CaptureStays(s: Session, records: seq<MiRecord>)
    ensures Capture(s, records) == s.(trace := Capture(s, records).trace)
  {}

  lemma {:induction false} StepPlays(w: World, s: Session, over: bool)
    requires s.state == Halted && s.generation > 0
    ensures var (s', r) := DoStep(w, s, over); Plays(w, s, ScriptOf(w, s, Step(over)), s', r)
  {
    hide Plays;
    hide Run;
    hide FinishStop;
    hide Announce;
    hide Resume;
    var n, g := s.calls, s.generation;
    var command := if over then ExecNext else ExecStep;
    var (s', r) := DoStep(w, s, over);
    var (s1, run) := Run(w, s, command, true, WantRunning);
    RunAnswers(w, s, command, true, WantRunning);
    var stop := Announce(w, n + 1, g, Records(w, n), "step", true);
    var late := Announce(w, n + 2, g, Records(w, n + 1), "step", true);
    var next := if StopSeen(w, n) then stop else Ask("-exec-interrupt --all", true, DONE, None, late);
    if run.Ok? {
      var s2 := Emit(Transition(s1, Running), TargetRunning(g));
      if StopSeen(w, n) {
        AnnouncePlays(w, s2, Records(w, n), "step", true);
      } else {
        InterruptPlays(w, s2, "step");
        var interrupt := Run(w, s2, Interrupt, true, WantDone).1;
        RunAnswers(w, s2, Interrupt, true, WantDone);
      }
      ResumePlays(w, s1, next, s', r);
    }
    AskPlays(w, s, command, true, WantRunning, None, Resume(g, next), s', r);
  }

  lemma {:induction false} ResetHaltPlays(w: World, s: Session)
    requires (s.state == Halted || s.state == Running) && s.generation > 0
    ensures var (s', r) := DoResetHalt(w, s); Plays(w, s, ScriptOf(w, s, ResetHalt), s', r)
  {
    hide Plays;
    hide Run;
    hide FrameOf;
    hide CommandText;
    hide ConsoleLine;
    Lines();
    var g := s.generation;
    var (s', r) := DoResetHalt(w, s);
    var (s1, reset) := Run(w, s, ResetTarget, false, WantDone);
    var s2 := if s.state == Running then Transition(s1, Halted) else s1;
    var (s3, query) := Run(w, s2, FrameInfo, false, WantDone);
    RunAnswers(w, s2, FrameInfo, false, WantDone);
    var frame := FrameOf(Results(w, s.calls + 1));
    var told := Tell(Stopped(g, "reset", frame), Return(None));
    var next := if frame.None? then Refuse(DebugError(TARGET_HALT_UNCONFIRMED)) else Tell(Reset(g), told);
    var asking := Ask("-stack-info-frame", false, DONE, None, next);
    if reset.Ok? {
      if query.Ok? && frame.None? {
        RefusePlays(w, s3, DebugError(TARGET_HALT_UNCONFIRMED));
      } else if query.Ok? {
        ReturnPlays(w, s', None);
        TellPlays(w, Emit(s3, Reset(g)), Stopped(g, "reset", frame), Return(None), s', r);
        TellPlays(w, s3, Reset(g), told, s', r);
      }
      AskPlays(w, s2, FrameInfo, false, WantDone, None, next, s', r);
      if s.state == Running {
        EnterPlays(w, s1, Halted, asking, s', r);
      }
    }
    var rest := if s.state == Running then Enter(g, Running, Halted, asking) else asking;
    AskPlays(w, s, ResetTarget, false, WantDone, None, rest, s', r);
  }

  lemma {:induction false} InspectPlays(w: World, s: Session, queries: seq<Query>)
    ensures var (s', r) := DoQueries(w, s, queries); Plays(w, s, Inspecting(queries), s', r)
    decreases |queries|
  {
    hide Plays;
    hide Run;
    var (s', r) := DoQueries(w, s, queries);
    if queries == [] {
      ReturnPlays(w, s, None);
    } else {
      var query, rest := queries[0], queries[1..];
      var (s1, answer) := Run(w, s, Inspection(query.command), false, WantDone);
      var next := if query.refusal.Some? then Refuse(DebugError(query.refusal.value)) else Inspecting(rest);
      if answer.Ok? {
        if query.refusal.Some? {
          RefusePlays(w, s1, DebugError(query.refusal.value));
        } else {
          InspectPlays(w, s1, rest);
        }
      }
      AskPlays(w, s, Inspection(query.command), false, WantDone, None, next, s', r);
    }
  }

  lemma {:induction false} LoadPlays(w: World, s: Session)
    ensures var (s', r) := LoadSteps(w, s); Plays(w, s, Loading(w, s.calls, s.generation), s', r)
  {
    hide Plays;
    hide Run;
    hide CommandText;
    hide ConsoleLine;
    hide Verified;
    hide Affirmed;
    hide ResetAndConfirm;
    hide Confirm;
    Lines();
    var n, g := s.calls, s.generation;
    var (s', r) := LoadSteps(w, s);
    var s0 := Emit(s, Progress(g, 0));
    var (s1, download) := Run(w, s0, Download, false, WantDone);
    var (s2, compare) := Run(w, s1, CompareSections, false, WantDone);
    RunAnswers(w, s1, CompareSections, false, WantDone);
    var records := Records(w, n + 1);
    VerifiedIff(records);
    var confirm := Confirm(w, n + 2, Tell(Progress(g, 1), Tell(Loaded(g), Return(None))));
    var next := if Affirmed(records) then confirm else Refuse(DebugError(FIRMWARE_VERIFY_FAILED));
    if download.Ok? {
      if compare.Ok? && Affirmed(records) {
        LoadedPlays(w, s2, g);
      } else if compare.Ok? {
        RefusePlays(w, s2, DebugError(FIRMWARE_VERIFY_FAILED));
      }
      AskPlays(w, s1, CompareSections, false, WantDone, None, next, s', r);
    }
    var comparing := Ask(ConsoleLine("compare-sections"), false, DONE, None, next);
    AskPlays(w, s0, Download, false, WantDone, None, comparing, s', r);
    TellPlays(w, s, Progress(g, 0), Ask("-target-download", false, DONE, None, comparing), s', r);
  }

  lemma {:induction false} LoadedPlays(w: World, s: Session, g: nat)
    ensures var (s1, reset) := ResetAndConfirm(w, s);
            var confirm := Confirm(w, s.calls, Tell(Progress(g, 1), Tell(Loaded(g), Return(None))));
            if reset.Ok? then Plays(w, s, confirm, Emit(Emit(s1, Progress(g, 1)), Loaded(g)), Ok(None))
            else Plays(w, s, confirm, s1, Err(reset.error))
  {
    hide Plays;
    hide ResetAndConfirm;
    hide Confirm;
    var (s1, reset) := ResetAndConfirm(w, s);
    var told := Tell(Loaded(g), Return(None));
    if reset.Ok? {
      var s2 := Emit(s1, Progress(g, 1));
      var s' := Emit(s2, Loaded(g));
      ReturnPlays(w, s', None);
      TellPlays(w, s2, Loaded(g), Return(None), s', Ok(None));
      TellPlays(w, s1, Progress(g, 1), told, s', Ok(None));
      ConfirmPlays(w, s, Tell(Progress(g, 1), told), s', Ok(None));
    } else {
      ConfirmPlays(w, s, Tell(Progress(g, 1), told), s1, Err(reset.error));
    }
  }

  lemma {:induction false} PollPlays(w: World, s: Session)
    requires s.state == Running ==> s.generation > 0
    ensures var (s', r) := DoPoll(w, s); Plays(w, s, ScriptOf(w, s, PollEvents), s', r)
  {
    hide Plays;
    hide FinishStop;
    hide Announce;
    hide Capture;
    var batch := w.batch(s.calls);
    var records := if batch.Ok? then batch.value else [];
    var (s', r) := DoPoll(w, s);
    if s.state == Idle {
      ReturnPlays(w, s, None);
    } else {
      var s1 := Issue(s, PollCall(batch));
      var s2 := Capture(s1, records);
      StopInBatch(records);
      CaptureStays(s1, records);
      hide Transport.HasStop;
      var stops := s.state == Running && Transport.HasStop(records);
      var next := if stops then Announce(w, s.calls + 1, s.generation, records, "unknown", false) else Return(None);
      if stops {
        AnnouncePlays(w, s2, records, "unknown", false);
      } else {
        ReturnPlays(w, s2, None);
      }
      TakePlays(w, s, false, next, s1, s', r);
    }
  }

  lemma StopInBatch(records: seq<MiRecord>)
    ensures Transport.HasStop(records) <==> exists r :: r in records && r.Exec? && r.cls == "stopped"
  {}

  lemma {:induction false} ClosingPlays(w: World, s: Session, reason: string, heed: bool)
    ensures Plays(w, s, Closing(w, s.calls, s.generation, s.state, reason, heed), Close(w, s, reason),
                  if heed && w.shutdown(s.calls).Err? then Err(w.shutdown(s.calls).error) else Ok(None))
  {
    hide Plays;
    var g := s.generation;
    var outcome := w.shutdown(s.calls);
    var r := if heed && outcome.Err? then Err(outcome.error) else Ok(None);
    var end := if r.Err? then Refuse(r.error) else Return(None);
    var s1 := Transition(s, Disconnecting);
    var s2 := Issue(s1, ShutdownCall(outcome));
    var s3 := Transition(s2, Idle);
    var s4 := s3.(probe := None);
    var s' := Close(w, s, reason);
    if r.Err? {
      RefusePlays(w, s', r.error);
    } else {
      ReturnPlays(w, s', None);
    }
    TellPlays(w, s4, SessionStopped(g, reason), end, s', r);
    var told := Tell(SessionStopped(g, reason), end);
    SamePlays(w, s4, s3, told, s', r);
    EnterPlays(w, s2, Idle, told, s', r);
    ClosePlays(w, s1, Enter(g, Disconnecting, Idle, told), s', r);
    EnterPlays(w, s, Disconnecting, Quit(Enter(g, Disconnecting, Idle, told)), s', r);
  }

  lemma {:induction false} EndPlays(w: World, s: Session, to: State, e: Event, reason: string)
    requires OfOutline(e)
    ensures Plays(w, s, Enter(s.generation, s.state, to,
                              Tell(e, Closing(w, s.calls, s.generation, to, reason, false))),
                  Close(w, Emit(Transition(s, to), e), reason), Ok(None))
  {
    hide Plays;
    hide Closing;
    var s' := Close(w, Emit(Transition(s, to), e), reason);
    var closing := Closing(w, s.calls, s.generation, to, reason, false);
    ClosingPlays(w, Emit(Transition(s, to), e), reason, false);
    TellPlays(w, Transition(s, to), e, closing, s', Ok(None));
    EnterPlays(w, s, to, Tell(e, closing), s', Ok(None));
  }

  /** Every operation plays its script, from any settled session and against any transport. */
  lemma {:induction false} EngineFollowsScript(w: World, s: Session, op: Op)
    requires Runs.Numbered(s) && Runs.Settled(s.state)
    ensures var (s', r) := Do(w, s, op);
            Plays(w, s, ScriptOf(w, s, op), s', r)
  {
    hide Plays;
    hide Connecting;
    hide Starting;
    hide Announce;
    hide Loading;
    hide Closing;
    hide Inspecting;
    hide BadSerial;
    hide Run;
    hide FinishStop;
    var (s', r) := Do(w, s, op);
    match op {
      case Start(serial, port, elf) => StartPlays(w, s, serial, port, elf);
      case Connect(serial, port, elf) =>
        SerialOkIff(serial);
        if s.state == GdbStarting && s.generation > 0 && SerialOk(serial) && elf.Some? {
          ConnectPlays(w, s, serial, port, elf);
        } else {
          RefusePlays(w, s, r.error);
        }
      case Continue =>
        if s.state == Halted {
          ContinuePlays(w, s);
        } else {
          RefusePlays(w, s, INVALID_STATE);
        }
      case Halt =>
        if s.state == Running {
          HaltPlays(w, s);
        } else {
          RefusePlays(w, s, INVALID_STATE);
        }
      case WaitStopped =>
        if s.state == Running {
          WaitPlays(w, s);
        } else {
          RefusePlays(w, s, INVALID_STATE);
        }
      case Step(over) =>
        if s.state == Halted {
          StepPlays(w, s, over);
        } else {
          RefusePlays(w, s, INVALID_STATE);
        }
      case ResetHalt =>
        if s.state == Halted || s.state == Running {
          ResetHaltPlays(w, s);
        } else {
          RefusePlays(w, s, INVALID_STATE);
        }
      case Inspect(badArgument, queries) =>
        if s.state == Halted && badArgument.None? {
          InspectPlays(w, s, queries);
        } else {
          RefusePlays(w, s, r.error);
        }
      case Load(authorization) =>
        if s.state == Halted && s.probe.Some? && authorization == "firmware.load:" + s.probe.value {
          LoadPlays(w, s);
        } else {
          RefusePlays(w, s, r.error);
        }
      case PollEvents => PollPlays(w, s);
      case Stop =>
        if s.state == Idle {
          ReturnPlays(w, s, None);
        } else {
          ClosingPlays(w, s, "requested", true);
        }
      case Fail(cause) =>
        if s.state == Idle {
          ReturnPlays(w, s, None);
        } else {
          EndPlays(w, s, Failed, SessionError(s.generation, cause.code), "error");
        }
      case Cancel(operation) =>
        if s.state == Idle {
          ReturnPlays(w, s, None);
        } else {
          EndPlays(w, s, Cancelling, Cancelled(s.generation, operation), "cancelled");
        }
    }
  }

  /** So does every operation of every run, from a new engine or one that takes over a started lifecycle. */
  lemma {:induction false} RunsFollowScripts(w: World, generation: nat, ops: seq<Op>, op: Op)
    requires generation <= U64_MAX
    ensures var s := DoAll(w, New(), ops); Plays(w, s, ScriptOf(w, s, op), Do(w, s, op).0, Do(w, s, op).1)
    ensures var s := DoAll(w, Started(generation), ops); Plays(w, s, ScriptOf(w, s, op), Do(w, s, op).0, Do(w, s, op).1)
  {
    hide Plays;
    hide ScriptOf;
    hide Do;
    hide Runs.Good;
    Beginnings(generation);
    var from := if generation > 0 then Some(GdbStarting) else None;
    Runs.RunKeepsInv(w, New(), ops, Some(Idle));
    Runs.RunKeepsInv(w, Started(generation), ops, from);
    hide Runs.SumOf;
    EngineFollowsScript(w, DoAll(w, New(), ops), op);
    EngineFollowsScript(w, DoAll(w, Started(generation), ops), op);
  }

  lemma Beginnings(generation: nat)
    requires generation <= U64_MAX
    ensures Runs.Inv(New(), Some(Idle))
    ensures Runs.Inv(Started(generation), if generation > 0 then Some(GdbStarting) else None)
  {}

  predicate SameIdentity(s: Session, s': Session) {
    s'.generation == s.generation && s'.probe == s.probe
  }

  lemma {:induction false} FinishKeepsIdentity(w: World, s: Session, records: seq<MiRecord>, fallback: string)
    ensures SameIdentity(s, FinishStop(w, s, records, fallback).0)
  {}

  lemma {:induction false} QueriesKeepIdentity(w: World, s: Session, queries: seq<Query>)
    ensures SameIdentity(s, DoQueries(w, s, queries).0)
    decreases |queries|
  {
    if queries != [] {
      QueriesKeepIdentity(w, Run(w, s, Inspection(queries[0].command), false, WantDone).0, queries[1..]);
    }
  }

  lemma {:induction false} ConnectSetsProbe(w: World, s: Session, serial: string, port: nat, elf: Option<string>)
    ensures var s' := DoConnect(w, s, serial, port, elf).0;
            s' == s || (s'.generation == s.generation && s'.probe == Some(serial) && s'.calls > s.calls)
  {
    hide Run;
    hide BadSerial;
    hide ResetAndConfirm;
  }

  /** Probe and generation change only when a session is started or taken over, and the probe when it ends. */
  lemma {:induction false} ProbeAndGeneration(w: World, s: Session, op: Op)
    ensures var s' := Do(w, s, op).0;
            var begun := (op.Start? || op.Connect?) && s'.calls > s.calls;
            var ended := (op.Stop? || op.Fail? || op.Cancel?) && s.state != Idle;
            && s'.generation == (if begun && op.Start? then Min(s.generation + 1, U64_MAX) else s.generation)
            && s'.probe == (if begun then Some(op.serial) else if ended then None else s.probe)
  {
    hide Run;
    hide FinishStop;
    hide DoConnect;
    hide DoQueries;
    hide BadSerial;
    hide FrameOf;
    hide Verified;
    hide ResetAndConfirm;
    hide Transport.HasStop;
    forall s, records, fallback {
      FinishKeepsIdentity(w, s, records, fallback);
    }
    match op {
      case Inspect(badArgument, queries) => QueriesKeepIdentity(w, s, queries);
      case Start(serial, port, elf) =>
        ConnectSetsProbe(w, Prepare(s, serial, port), serial, port, elf);
        if s.state == Idle && !BadSerial(serial) && elf.Some? {
          StartReaches(w, s, serial, port, elf);
        }
      case Connect(serial, port, elf) => ConnectSetsProbe(w, s, serial, port, elf);
      case _ =>
    }
  }

  lemma StartReaches(w: World, s: Session, serial: string, port: nat, elf: Option<string>)
    requires s.state == Idle && !BadSerial(serial) && elf.Some?
    ensures DoConnect(w, Prepare(s, serial, port), serial, port, elf).0.calls > s.calls
  {
    Runs.ConnectReaches(w, Prepare(s, serial, port), serial, port, elf);
  }

  // ---- What decides a load ----

  /** What a load has done when the answer to compare-sections is there. */
  function Compared(g: nat): seq<Item> {
    [Told(Progress(g, 0)), Said("-target-download", false), Said(ConsoleLine("compare-sections"), false)]
  }

  ghost predicate Grew(s: Session, s': Session, items: seq<Item>) {
    Outline(s'.trace) == Outline(s.trace) + items
  }

  /** The load has ended with the comparison. */
  ghost predicate EndsThere(s: Session, s': Session, r: Outcome) {
    r == Err(DebugError(FIRMWARE_VERIFY_FAILED)) && Grew(s, s', Compared(s.generation))
  }

  /** The load has asked for the reset. */
  ghost predicate GoesOn(s: Session, s': Session) {
    exists rest ::
      Grew(s, s', Compared(s.generation) + ([Said(ConsoleLine("monitor reset halt"), false)] + rest))
  }

  lemma {:induction false} PlayComparison(w: World, n: nat, g: nat)
    requires Passes(w, n, DONE) && Passes(w, n + 1, DONE)
    ensures var (items, r) := Play(w, n, Loading(w, n, g));
            if Affirmed(Records(w, n + 1)) then
              exists rest :: items == Compared(g) + ([Said(ConsoleLine("monitor reset halt"), false)] + rest)
            else items == Compared(g) && r == Err(DebugError(FIRMWARE_VERIFY_FAILED))
  {
    hide Affirmed;
    hide ConsoleLine;
    hide Passes;
    hide Why;
    hide Records;
    var done := Tell(Progress(g, 1), Tell(Loaded(g), Return(None)));
    var (items, r) := Play(w, n + 2, Confirm(w, n + 2, done));
    assert items[0] == Said(ConsoleLine("monitor reset halt"), false);
    assert items == [items[0]] + items[1..];
    var refuse := Refuse(DebugError(FIRMWARE_VERIFY_FAILED));
    var next := if Affirmed(Records(w, n + 1)) then Confirm(w, n + 2, done) else refuse;
    hide Confirm;
    var tail := Play(w, n + 2, next).0;
    var comparing := Ask(ConsoleLine("compare-sections"), false, DONE, None, next);
    assert Play(w, n + 1, comparing).0 == [Said(ConsoleLine("compare-sections"), false)] + tail;
    assert Play(w, n, Loading(w, n, g)).0 == Compared(g) + tail;
  }

  /** Whether an accepted download goes on to the reset is decided by what the answer to compare-sections says: a single
      record that speaks of a mismatch or a failure, in letters of either case, ends the load without a Loaded event,
      and so does an answer that nowhere speaks of a match. */
  lemma {:induction false} LoadVerification(w: World, s: Session, authorization: string, k: nat)
    requires s.state == Halted && s.probe.Some? && authorization == "firmware.load:" + s.probe.value
    requires Passes(w, s.calls, DONE) && Passes(w, s.calls + 1, DONE)
    ensures var records := w.command(s.calls + 1).value.records;
            var text := Concat(Spoken(records));
            var (s', r) := DoLoad(w, s, authorization);
            && (k < |records| && (records[k].Console? || records[k].Log?) && Refutes(records[k].text)
                ==> EndsThere(s, s', r))
            && (Refutes(text) || !Says(text, "matched") ==> EndsThere(s, s', r))
            && (!Refutes(text) && Says(text, "matched") ==> GoesOn(s, s'))
  {
    var n := s.calls;
    var records := w.command(n + 1).value.records;
    if k < |records| && (records[k].Console? || records[k].Log?) && Refutes(records[k].text) {
      RefutingRecord(records, k);
    }
    hide Says;
    hide Refutes;
    LoadPlays(w, s);
    PlayComparison(w, n, s.generation);
    hide LoadSteps;
    hide Outline;
    hide ConsoleLine;
    hide Play;
    hide Loading;
    hide Spoken;
    hide CallsOf;
    hide StateAfter;
  }
}
