/** What holds after any sequence of engine operations against any transport. */
module SessionRuns {
  import opened Common
  import opened MiSyntax
  import opened SessionModel
  import Transport

  /** The lifecycle of docs/architecture.md. */
  predicate Live(s: State) {
    s != Idle && s != Failed && s != Cancelling && s != Disconnecting
  }

  predicate Edge(a: State, b: State) {
    match b
    case Idle => a == Disconnecting
    case ProbeSelected => a == Idle
    case ServerStarting => a == ProbeSelected
    case ServerReady => a == ServerStarting
    case GdbStarting => a == ServerReady
    case Connected => a == GdbStarting
    case Halted => a == Connected || a == Running
    case Running => a == Halted
    case Failed => a != Idle
    case Cancelling => a != Idle
    case Disconnecting => Live(a) || a == Failed || a == Cancelling
  }

  /** The states in which an operation may return. */
  predicate Settled(s: State) {
    s == Idle || s == GdbStarting || s == Connected || s == Halted || s == Running
  }

  /** A piece of target output or of GDB's own output. */
  datatype Text = FromTarget(text: string) | FromGdb(text: string)

  function RecordTexts(records: seq<MiRecord>): seq<Text> {
    if records == [] then []
    else RecordTexts(records[..|records| - 1]) + RecordText(records[|records| - 1])
  }

  function RecordText(r: MiRecord): seq<Text> {
    match r
    case Target(text) => [FromTarget(text)]
    case Console(text) => [FromGdb(text)]
    case Log(text) => [FromGdb(text)]
    case _ => []
  }

  /** What a history adds up to: where its State events lead and whether they form one path of lifecycle edges, how
      often the transport was shut down, a session ended or firmware was loaded, the texts published as events, and
      the texts in the batches that the transport returned. */
  datatype Summary = Summary(at: Option<State>, connected: bool, shutdowns: nat, ends: nat, loads: nat, stops: nat,
                             shown: seq<Text>, answered: seq<Text>)

  function Nothing(from: Option<State>): Summary {
    Summary(from, true, 0, 0, 0, 0, [], [])
  }

  function AbsorbEvent(m: Summary, e: Event): Summary {
    match e
    case StateChange(_, previous, current) =>
      m.(at := Some(current),
         connected := m.connected && (m.at.None? || m.at == Some(previous)) && Edge(previous, current))
    case SessionStopped(_, _) => m.(ends := m.ends + 1)
    case Loaded(_) => m.(loads := m.loads + 1)
    case Stopped(_, _, _) => m.(stops := m.stops + 1)
    case TargetOutput(_, text) => m.(shown := m.shown + [FromTarget(text)])
    case LogLine(_, source, text) => if source == "gdb" then m.(shown := m.shown + [FromGdb(text)]) else m
    case _ => m
  }

  function AbsorbCall(m: Summary, c: Call): Summary {
    match c
    case CommandCall(_, _, reply) =>
      if reply.Ok? then m.(answered := m.answered + RecordTexts(reply.value.records)) else m
    case WaitCall(batch) => if batch.Ok? then m.(answered := m.answered + RecordTexts(batch.value)) else m
    case PollCall(batch) => if batch.Ok? then m.(answered := m.answered + RecordTexts(batch.value)) else m
    case ShutdownCall(_) => m.(shutdowns := m.shutdowns + 1)
  }

  function Absorb(m: Summary, entry: Entry): Summary {
    match entry
    case Ev(e) => AbsorbEvent(m, e)
    case Ca(c) => AbsorbCall(m, c)
  }

  function Sum(trace: seq<Entry>, from: Option<State>): Summary {
    if trace == [] then Nothing(from) else Absorb(Sum(trace[..|trace| - 1], from), trace[|trace| - 1])
  }

  lemma {:induction false} SumOne(trace: seq<Entry>, entry: Entry, from: Option<State>)
    ensures Sum(trace + [entry], from) == Absorb(Sum(trace, from), entry)
  {
    assert (trace + [entry])[..|trace|] == trace;
  }

  /** The events made of a batch show exactly the texts of the batch. */
  lemma {:induction false} SumCaptured(trace: seq<Entry>, generation: nat, records: seq<MiRecord>, from: Option<State>)
    ensures var m := Sum(trace, from);
            Sum(trace + CapturedAll(generation, records), from) == m.(shown := m.shown + RecordTexts(records))
  {
    var m := Sum(trace, from);
    if records == [] {
      AppendEmpty(trace);
      AppendEmpty(m.shown);
    } else {
      var n := |records| - 1;
      var before, last := CapturedAll(generation, records[..n]), Captured(generation, records[n]);
      var texts, text := RecordTexts(records[..n]), RecordText(records[n]);
      SumCaptured(trace, generation, records[..n], from);
      SumCapturedOne(trace + before, generation, records[n], from);
      AppendAssociates(trace, before, last);
      AppendAssociates(m.shown, texts, text);
    }
  }

  lemma {:induction false} SumCapturedOne(trace: seq<Entry>, generation: nat, record: MiRecord, from: Option<State>)
    ensures var m := Sum(trace, from);
            Sum(trace + Captured(generation, record), from) == m.(shown := m.shown + RecordText(record))
  {
    if record.Target? || record.Console? || record.Log? {
      var event :=
        if record.Target? then TargetOutput(generation, record.text) else LogLine(generation, "gdb", record.text);
      var text := if record.Target? then FromTarget(record.text) else FromGdb(record.text);
      assert Captured(generation, record) == [Ev(event)] && RecordText(record) == [text];
      SumText(trace, event, text, from);
    } else {
      AppendEmpty(trace);
      AppendEmpty(Sum(trace, from).shown);
    }
  }

  lemma {:induction false} SumText(trace: seq<Entry>, event: Event, text: Text, from: Option<State>)
    requires event.TargetOutput? || (event.LogLine? && event.source == "gdb")
    requires text == if event.TargetOutput? then FromTarget(event.text) else FromGdb(event.text)
    ensures var m := Sum(trace, from); Sum(trace + [Ev(event)], from) == m.(shown := m.shown + [text])
  {
    SumOne(trace, Ev(event), from);
  }

  function SumOf(s: Session, from: Option<State>): Summary {
    Sum(s.trace, from)
  }

  /** The State events form a path of lifecycle edges that leads to the engine's state. */
  predicate OnPath(s: Session, from: Option<State>) {
    var m := SumOf(s, from);
    && m.connected
    && (m.at.Some? ==> m.at.value == s.state)
    && (s.generation == 0 ==> m.at == from && (from.Some? ==> s.state == Idle))
  }

  /** Every session end is one shutdown of the transport, and every text of a returned batch is one event, in order. */
  predicate Balanced(s: Session, from: Option<State>) {
    var m := SumOf(s, from);
    m.shutdowns == m.ends && m.shown == m.answered
  }

  predicate Good(s: Session, from: Option<State>) {
    OnPath(s, from) && Balanced(s, from)
  }

  predicate SameCounts(s: Session, s': Session, from: Option<State>) {
    SumOf(s', from).loads == SumOf(s, from).loads && SumOf(s', from).ends == SumOf(s, from).ends
  }

  /** Events that neither change the state nor show text nor end the session. */
  predicate Plain(e: Event) {
    !e.StateChange? && !e.SessionStopped? && !e.TargetOutput? && !e.LogLine?
  }

  lemma {:induction false} EmitKeeps(s: Session, e: Event, from: Option<State>)
    requires Good(s, from) && Plain(e)
    ensures Good(Emit(s, e), from)
    ensures SumOf(Emit(s, e), from).loads == SumOf(s, from).loads + (if e.Loaded? then 1 else 0)
    ensures SumOf(Emit(s, e), from).ends == SumOf(s, from).ends
    ensures SumOf(Emit(s, e), from).stops == SumOf(s, from).stops + (if e.Stopped? then 1 else 0)
  {
    SumOne(s.trace, Ev(e), from);
  }

  lemma {:induction false} TransitionKeeps(s: Session, next: State, from: Option<State>)
    requires OnPath(s, from) && Edge(s.state, next) && (s.generation == 0 && from.Some? ==> next == Idle)
    ensures OnPath(Transition(s, next), from)
    ensures SumOf(Transition(s, next), from) ==
            SumOf(s, from).(at := SumOf(Transition(s, next), from).at)
  {
    SumOne(s.trace, Ev(StateChange(s.generation, s.state, next)), from);
  }

  lemma {:induction false} RunKeeps(
    w: World, s: Session, command: MiCommand, wait: bool, want: Want, from: Option<State>)
    requires Good(s, from)
    ensures var s' := Run(w, s, command, wait, want).0;
            Good(s', from) && SameCounts(s, s', from) && SumOf(s', from).stops == SumOf(s, from).stops
  {
    var reply := w.command(s.calls);
    var call := CommandCall(command, wait, reply);
    SumOne(s.trace, Ca(call), from);
    if reply.Ok? {
      SumCaptured(s.trace + [Ca(call)], s.generation, reply.value.records, from);
    }
  }

  lemma {:induction false} BatchKeeps(s: Session, call: Call, from: Option<State>)
    requires Good(s, from) && (call.WaitCall? || call.PollCall?)
    ensures var s1 := Issue(s, call);
            var s' := if call.batch.Ok? then Capture(s1, call.batch.value) else s1;
            Good(s', from) && SameCounts(s, s', from) && SumOf(s', from).stops == SumOf(s, from).stops
  {
    SumOne(s.trace, Ca(call), from);
    if call.batch.Ok? {
      SumCaptured(s.trace + [Ca(call)], s.generation, call.batch.value, from);
    }
  }

  lemma {:induction false} CloseKeeps(w: World, s: Session, reason: string, from: Option<State>)
    requires Good(s, from) && Edge(s.state, Disconnecting)
    ensures var s' := Close(w, s, reason);
            Good(s', from) && s'.state == Idle
            && SumOf(s', from).ends == SumOf(s, from).ends + 1 && SumOf(s', from).loads == SumOf(s, from).loads
  {
    var s1 := Transition(s, Disconnecting);
    TransitionKeeps(s, Disconnecting, from);
    var outcome := w.shutdown(s1.calls);
    var s2 := Issue(s1, ShutdownCall(outcome));
    ShutdownCounts(s1, outcome, from);
    var s3 := Transition(s2, Idle);
    TransitionKeeps(s2, Idle, from);
    EndCounts(s3.(probe := None), reason, s.generation, from);
  }

  lemma {:induction false} ShutdownCounts(s: Session, outcome: Result<()>, from: Option<State>)
    requires OnPath(s, from)
    ensures var s' := Issue(s, ShutdownCall(outcome));
            OnPath(s', from) && SumOf(s', from) == SumOf(s, from).(shutdowns := SumOf(s, from).shutdowns + 1)
  {
    SumOne(s.trace, Ca(ShutdownCall(outcome)), from);
  }

  lemma {:induction false} EndCounts(s: Session, reason: string, generation: nat, from: Option<State>)
    requires OnPath(s, from)
    ensures var s' := Emit(s, SessionStopped(generation, reason));
            OnPath(s', from) && SumOf(s', from) == SumOf(s, from).(ends := SumOf(s, from).ends + 1)
  {
    SumOne(s.trace, Ev(SessionStopped(generation, reason)), from);
  }

  /** A stop is announced exactly once, whatever becomes of the frame query, and leaves the engine halted. */
  lemma {:induction false} FinishStopKeeps(
    w: World, s: Session, records: seq<MiRecord>, fallback: string, from: Option<State>)
    requires Good(s, from) && s.state == Running && s.generation > 0
    ensures var s' := FinishStop(w, s, records, fallback).0;
            Good(s', from) && s'.state == Halted && s'.generation == s.generation
            && SumOf(s', from).stops == SumOf(s, from).stops + 1 && SameCounts(s, s', from)
  {
    var details := StoppedDetails(records);
    var reason := if details.Some? then details.value.0 else fallback;
    var s1 := Transition(s, Halted);
    TransitionKeeps(s, Halted, from);
    if details.Some? && details.value.1.Some? {
      EmitKeeps(s1, Stopped(s.generation, reason, details.value.1), from);
    } else {
      RunKeeps(w, s1, FrameInfo, false, WantDone, from);
      var (s2, query) := Run(w, s1, FrameInfo, false, WantDone);
      EmitKeeps(s2, Stopped(s.generation, reason, if query.Err? then None else FrameOf(query.value.results)), from);
    }
  }

  lemma {:induction false} ResetAndConfirmKeeps(w: World, s: Session, from: Option<State>)
    requires Good(s, from)
    ensures var s' := ResetAndConfirm(w, s).0;
            Good(s', from) && s'.state == s.state && s'.generation == s.generation
            && SameCounts(s, s', from)
  {
    RunKeeps(w, s, ResetTarget, false, WantDone, from);
    RunKeeps(w, Run(w, s, ResetTarget, false, WantDone).0, FrameInfo, false, WantDone, from);
  }

  /** A session that is not idle and not merely connecting has a generation. */
  predicate Numbered(s: Session) {
    s.state != Idle && s.state != GdbStarting ==> s.generation > 0
  }

  predicate Inv(s: Session, from: Option<State>) {
    Good(s, from) && Settled(s.state) && Numbered(s) && s.generation <= U64_MAX
  }

  /** What a run keeps, and how many Loaded events it adds. */
  predicate KeptRun(s: Session, s': Session, from: Option<State>, loaded: nat) {
    Inv(s', from) && s.generation <= s'.generation && SumOf(s', from).loads == SumOf(s, from).loads + loaded
  }

  /** One operation moreover ends a session exactly by going idle. */
  predicate Kept(s: Session, s': Session, from: Option<State>, loaded: nat) {
    && KeptRun(s, s', from, loaded)
    && SumOf(s', from).ends == SumOf(s, from).ends + (if s.state != Idle && s'.state == Idle then 1 else 0)
  }

  lemma {:induction false} ConnectKeeps(
    w: World, s: Session, serial: string, port: nat, elf: Option<string>, from: Option<State>)
    requires Inv(s, from)
    ensures Kept(s, DoConnect(w, s, serial, port, elf).0, from, 0)
  {
    if s.state == GdbStarting && s.generation > 0 && !BadSerial(serial) && elf.Some? {
      var s0 := s.(probe := Some(serial));
      RunKeeps(w, s0, MiAsync, false, WantDone, from);
      var (s1, async) := Run(w, s0, MiAsync, false, WantDone);
      RunKeeps(w, s1, Symbols(elf.value), false, WantDone, from);
      var (s2, symbols) := Run(w, s1, Symbols(elf.value), false, WantDone);
      RunKeeps(w, s2, SelectRemote(port), false, WantConnected, from);
      var (s3, target) := Run(w, s2, SelectRemote(port), false, WantConnected);
      TransitionKeeps(s3, Connected, from);
      ConfirmKeeps(w, Transition(s3, Connected), from);
    }
  }

  lemma {:induction false} ConfirmKeeps(w: World, s: Session, from: Option<State>)
    requires Good(s, from) && s.state == Connected && s.generation > 0
    ensures var (s1, reset) := ResetAndConfirm(w, s);
            var s' := if reset.Err? then s1 else Emit(Transition(s1, Halted), Stopped(s.generation, "reset", None));
            Good(s', from) && SameCounts(s, s', from) && s'.generation == s.generation
            && s'.state == if reset.Err? then Connected else Halted
  {
    ResetAndConfirmKeeps(w, s, from);
    var (s1, reset) := ResetAndConfirm(w, s);
    TransitionKeeps(s1, Halted, from);
    EmitKeeps(Transition(s1, Halted), Stopped(s.generation, "reset", None), from);
  }

  lemma {:induction false} PrepareKeeps(s: Session, serial: string, port: nat, from: Option<State>)
    requires Inv(s, from) && s.state == Idle
    ensures Kept(s, Prepare(s, serial, port), from, 0) && Prepare(s, serial, port).state == GdbStarting
    ensures Prepare(s, serial, port).generation > 0
  {
    var s0 := s.(generation := Min(s.generation + 1, U64_MAX), probe := Some(serial));
    var g := s0.generation;
    AdvanceKeeps(s0, ProbeSelected, ProbeChosen(g, serial), from);
    var s1 := Emit(Transition(s0, ProbeSelected), ProbeChosen(g, serial));
    AdvanceKeeps(s1, ServerStarting, ServerStarted(g), from);
    var s2 := Emit(Transition(s1, ServerStarting), ServerStarted(g));
    AdvanceKeeps(s2, ServerReady, ServerIsReady(g, port), from);
    var s3 := Emit(Transition(s2, ServerReady), ServerIsReady(g, port));
    AdvanceKeeps(s3, GdbStarting, GdbStarted(g), from);
  }

  lemma {:induction false} AdvanceKeeps(s: Session, next: State, e: Event, from: Option<State>)
    requires Good(s, from) && Edge(s.state, next) && s.generation > 0 && Plain(e) && !e.Loaded?
    ensures var s' := Emit(Transition(s, next), e);
            Good(s', from) && s'.state == next && s'.generation == s.generation
            && SameCounts(s, s', from)
  {
    TransitionKeeps(s, next, from);
    EmitKeeps(Transition(s, next), e, from);
  }

  lemma {:induction false} StartKeeps(
    w: World, s: Session, serial: string, port: nat, elf: Option<string>, from: Option<State>)
    requires Inv(s, from)
    ensures Kept(s, DoStart(w, s, serial, port, elf).0, from, 0)
  {
    if s.state == Idle && !BadSerial(serial) && elf.Some? {
      PrepareKeeps(s, serial, port, from);
      ConnectKeeps(w, Prepare(s, serial, port), serial, port, elf, from);
    }
  }

  lemma {:induction false} ContinueKeeps(w: World, s: Session, from: Option<State>)
    requires Inv(s, from)
    ensures Kept(s, DoContinue(w, s).0, from, 0)
  {
    if s.state == Halted {
      RunKeeps(w, s, ExecContinue, false, WantRunning, from);
      var (s1, run) := Run(w, s, ExecContinue, false, WantRunning);
      RunningKeeps(s1, from);
      if run.Ok? && run.value.stoppedAfterCommand {
        var s2 := Emit(Transition(s1, Running), TargetRunning(s.generation));
        FinishStopKeeps(w, s2, run.value.records, "unknown", from);
      }
    }
  }

  lemma {:induction false} RunningKeeps(s: Session, from: Option<State>)
    requires Good(s, from) && s.state == Halted && s.generation > 0
    ensures var s' := Emit(Transition(s, Running), TargetRunning(s.generation));
            Good(s', from) && s'.state == Running && SameCounts(s, s', from)
  {
    TransitionKeeps(s, Running, from);
    EmitKeeps(Transition(s, Running), TargetRunning(s.generation), from);
  }

  lemma {:induction false} HaltKeeps(w: World, s: Session, from: Option<State>)
    requires Inv(s, from)
    ensures Kept(s, DoHalt(w, s).0, from, 0)
  {
    if s.state == Running {
      RunKeeps(w, s, Interrupt, true, WantDone, from);
      var (s1, interrupt) := Run(w, s, Interrupt, true, WantDone);
      if interrupt.Ok? {
        FinishStopKeeps(w, s1, interrupt.value.records, "halt", from);
      }
    }
  }

  lemma {:induction false} WaitKeeps(w: World, s: Session, from: Option<State>)
    requires Inv(s, from)
    ensures Kept(s, DoWait(w, s).0, from, 0)
  {
    if s.state == Running {
      var batch := w.batch(s.calls);
      BatchKeeps(s, WaitCall(batch), from);
      if batch.Ok? {
        FinishStopKeeps(w, Capture(Issue(s, WaitCall(batch)), batch.value), batch.value, "unknown", from);
      }
    }
  }

  lemma {:induction false} StepKeeps(w: World, s: Session, over: bool, from: Option<State>)
    requires Inv(s, from)
    ensures Kept(s, DoStep(w, s, over).0, from, 0)
  {
    if s.state == Halted {
      var command := if over then ExecNext else ExecStep;
      RunKeeps(w, s, command, true, WantRunning, from);
      var (s1, run) := Run(w, s, command, true, WantRunning);
      RunningKeeps(s1, from);
      var s2 := Emit(Transition(s1, Running), TargetRunning(s.generation));
      if run.Ok? {
        if run.value.stoppedAfterCommand {
          FinishStopKeeps(w, s2, run.value.records, "step", from);
        } else {
          RunKeeps(w, s2, Interrupt, true, WantDone, from);
          var (s3, interrupt) := Run(w, s2, Interrupt, true, WantDone);
          if interrupt.Ok? {
            FinishStopKeeps(w, s3, interrupt.value.records, "step", from);
          }
        }
      }
    }
  }

  lemma {:induction false} ResetHaltKeeps(w: World, s: Session, from: Option<State>)
    requires Inv(s, from)
    ensures Kept(s, DoResetHalt(w, s).0, from, 0)
  {
    if s.state == Halted || s.state == Running {
      RunKeeps(w, s, ResetTarget, false, WantDone, from);
      var (s1, reset) := Run(w, s, ResetTarget, false, WantDone);
      if s1.state == Running {
        TransitionKeeps(s1, Halted, from);
      }
      var s2 := if s1.state == Running then Transition(s1, Halted) else s1;
      RunKeeps(w, s2, FrameInfo, false, WantDone, from);
      var (s3, query) := Run(w, s2, FrameInfo, false, WantDone);
      EmitKeeps(s3, Reset(s.generation), from);
      if query.Ok? {
        EmitKeeps(Emit(s3, Reset(s.generation)), Stopped(s.generation, "reset", FrameOf(query.value.results)), from);
      }
    }
  }

  lemma {:induction false} QueriesKeep(w: World, s: Session, queries: seq<Query>, from: Option<State>)
    requires Inv(s, from) && s.state == Halted
    ensures var s' := DoQueries(w, s, queries).0; Kept(s, s', from, 0) && s'.state == Halted
    decreases |queries|
  {
    if queries != [] {
      RunKeeps(w, s, Inspection(queries[0].command), false, WantDone, from);
      var (s1, answer) := Run(w, s, Inspection(queries[0].command), false, WantDone);
      QueriesKeep(w, s1, queries[1..], from);
    }
  }

  predicate LoadSucceeds(w: World, s: Session, authorization: string) {
    s.state == Halted && Authorized(s, authorization) && StepsSucceed(w, s.calls)
  }

  lemma {:induction false} LoadStepsKeep(w: World, s: Session, from: Option<State>)
    requires Inv(s, from) && s.state == Halted
    ensures var (s', r) := LoadSteps(w, s);
            Kept(s, s', from, if r.Ok? then 1 else 0) && s'.state == s.state
  {
    var s0 := Emit(s, Progress(s.generation, 0));
    EmitKeeps(s, Progress(s.generation, 0), from);
    RunKeeps(w, s0, Download, false, WantDone, from);
    var (s1, download) := Run(w, s0, Download, false, WantDone);
    RunKeeps(w, s1, CompareSections, false, WantDone, from);
    if download.Ok? {
      var (s2, compare) := Run(w, s1, CompareSections, false, WantDone);
      if compare.Ok? && Verified(compare.value.records) {
        ResetAndConfirmKeeps(w, s2, from);
        var (s3, reset) := ResetAndConfirm(w, s2);
        LoadEndKeeps(s3, from);
      }
    }
  }

  lemma {:induction false} LoadEndKeeps(s: Session, from: Option<State>)
    requires Good(s, from)
    ensures var s' := Emit(Emit(s, Progress(s.generation, 1)), Loaded(s.generation));
            && Good(s', from)
            && SumOf(s', from).loads == SumOf(s, from).loads + 1 && SumOf(s', from).ends == SumOf(s, from).ends
  {
    EmitKeeps(s, Progress(s.generation, 1), from);
    EmitKeeps(Emit(s, Progress(s.generation, 1)), Loaded(s.generation), from);
  }

  /** Loaded is published exactly when the authorisation names this session's probe and all four steps succeeded;
      every other outcome is an error that leaves the engine as it was, halted if it was halted, without Loaded. */
  lemma {:induction false} LoadKeeps(w: World, s: Session, authorization: string, from: Option<State>)
    requires Inv(s, from)
    ensures var (s', r) := DoLoad(w, s, authorization);
            && Kept(s, s', from, if LoadSucceeds(w, s, authorization) then 1 else 0)
            && (r.Ok? <==> LoadSucceeds(w, s, authorization))
            && s'.state == s.state
  {
    if s.state == Halted {
      LoadStepsKeep(w, s, from);
    }
  }

  /** The commands of a history, in order. */
  function Commands(trace: seq<Entry>): seq<MiCommand> {
    if trace == [] then []
    else
      var last := trace[|trace| - 1];
      Commands(trace[..|trace| - 1]) + if last.Ca? && last.call.CommandCall? then [last.call.command] else []
  }

  lemma {:induction false} CommandsOne(trace: seq<Entry>, entry: Entry)
    ensures Commands(trace + [entry]) ==
            Commands(trace) + if entry.Ca? && entry.call.CommandCall? then [entry.call.command] else []
  {
    assert (trace + [entry])[..|trace|] == trace;
  }

  lemma {:induction false} CommandsCaptured(trace: seq<Entry>, generation: nat, records: seq<MiRecord>)
    ensures Commands(trace + CapturedAll(generation, records)) == Commands(trace)
  {
    if records == [] {
      AppendEmpty(trace);
    } else {
      var n := |records| - 1;
      var before, last := CapturedAll(generation, records[..n]), Captured(generation, records[n]);
      CapturedEvents(generation, records[n]);
      hide Captured;
      hide Commands;
      CommandsCaptured(trace, generation, records[..n]);
      AppendAssociates(trace, before, last);
      if last == [] {
        AppendEmpty(trace + before);
      } else {
        CommandsOne(trace + before, last[0]);
        AppendEmpty(Commands(trace));
      }
    }
  }

  lemma CapturedEvents(generation: nat, record: MiRecord)
    ensures var c := Captured(generation, record); c == [] || (c == [c[0]] && c[0].Ev?)
  {}

  lemma {:induction false} CommandsRun(w: World, s: Session, command: MiCommand, wait: bool, want: Want)
    ensures Commands(Run(w, s, command, wait, want).0.trace) == Commands(s.trace) + [command]
  {
    var reply := w.command(s.calls);
    var call := CommandCall(command, wait, reply);
    CommandsOne(s.trace, Ca(call));
    if reply.Ok? {
      CommandsCaptured(s.trace + [Ca(call)], s.generation, reply.value.records);
    }
  }

  const LOAD_SCRIPT := [Download, CompareSections, ResetTarget, FrameInfo]

  predicate FollowsScript(s: Session, s': Session, n: nat) {
    n <= |LOAD_SCRIPT| && Commands(s'.trace) == Commands(s.trace) + LOAD_SCRIPT[..n] && s'.calls == s.calls + n
  }

  /** An authorised load sends the download, the verification, the reset and the frame query, in this order and nothing
      else, up to the first that is not accepted; so its n-th answer is the answer to the n-th of them. */
  lemma {:induction false} LoadScript(w: World, s: Session, authorization: string)
    requires s.state == Halted && Authorized(s, authorization)
    ensures var (s', r) := DoLoad(w, s, authorization);
            exists n :: 1 <= n && FollowsScript(s, s', n) && (r.Ok? ==> n == 4)
  {
    hide Commands;
    hide Captured;
    hide CapturedAll;
    var (s', r) := DoLoad(w, s, authorization);
    var s0 := Emit(s, Progress(s.generation, 0));
    CommandsOne(s.trace, Ev(Progress(s.generation, 0)));
    CommandsRun(w, s0, Download, false, WantDone);
    var (s1, download) := Run(w, s0, Download, false, WantDone);
    CommandsRun(w, s1, CompareSections, false, WantDone);
    var (s2, compare) := Run(w, s1, CompareSections, false, WantDone);
    CommandsRun(w, s2, ResetTarget, false, WantDone);
    var (s3, reset) := Run(w, s2, ResetTarget, false, WantDone);
    CommandsRun(w, s3, FrameInfo, false, WantDone);
    var s4 := Run(w, s3, FrameInfo, false, WantDone).0;
    hide Run;
    ScriptPrefixes(Commands(s.trace));
    if download.Err? {
      assert FollowsScript(s, s', 1);
    } else if compare.Err? || !Verified(compare.value.records) {
      assert FollowsScript(s, s', 2);
    } else if reset.Err? {
      assert FollowsScript(s, s', 3);
    } else {
      CommandsOne(s4.trace, Ev(Progress(s.generation, 1)));
      CommandsOne(Emit(s4, Progress(s.generation, 1)).trace, Ev(Loaded(s.generation)));
      assert FollowsScript(s, s', 4);
    }
  }

  lemma ScriptPrefixes(before: seq<MiCommand>)
    ensures before + LOAD_SCRIPT[..1] == before + [] + [Download]
    ensures before + LOAD_SCRIPT[..2] == before + [] + [Download] + [CompareSections]
    ensures before + LOAD_SCRIPT[..3] == before + [] + [Download] + [CompareSections] + [ResetTarget]
    ensures before + LOAD_SCRIPT[..4] == before + [] + [Download] + [CompareSections] + [ResetTarget] + [FrameInfo]
    ensures forall c: seq<MiCommand> :: c + [] == c
  {}

  lemma {:induction false} PollKeeps(w: World, s: Session, from: Option<State>)
    requires Inv(s, from)
    ensures Kept(s, DoPoll(w, s).0, from, 0)
  {
    if s.state != Idle {
      var batch := w.batch(s.calls);
      BatchKeeps(s, PollCall(batch), from);
      if batch.Ok? && s.state == Running && Transport.HasStop(batch.value) {
        FinishStopKeeps(w, Capture(Issue(s, PollCall(batch)), batch.value), batch.value, "unknown", from);
      }
    }
  }

  lemma {:induction false} CleanupKeeps(w: World, s: Session, cause: Failure, operation: string, from: Option<State>)
    requires Inv(s, from)
    ensures Kept(s, DoFail(w, s, cause), from, 0) && DoFail(w, s, cause).state == Idle
    ensures Kept(s, DoCancel(w, s, operation), from, 0) && DoCancel(w, s, operation).state == Idle
    ensures Kept(s, DoStop(w, s).0, from, 0) && DoStop(w, s).0.state == Idle
  {
    if s.state != Idle {
      CloseKeeps(w, s, "requested", from);
      TransitionKeeps(s, Failed, from);
      EmitKeeps(Transition(s, Failed), SessionError(s.generation, cause.code), from);
      CloseKeeps(w, Emit(Transition(s, Failed), SessionError(s.generation, cause.code)), "error", from);
      TransitionKeeps(s, Cancelling, from);
      EmitKeeps(Transition(s, Cancelling), Cancelled(s.generation, operation), from);
      CloseKeeps(w, Emit(Transition(s, Cancelling), Cancelled(s.generation, operation)), "cancelled", from);
    }
  }

  /** How many Loaded events an operation is entitled to. */
  function LoadedBy(w: World, s: Session, op: Op): nat {
    if op.Load? && LoadSucceeds(w, s, op.authorization) then 1 else 0
  }

  lemma {:induction false} OpKeeps(w: World, s: Session, op: Op, from: Option<State>)
    requires Inv(s, from)
    ensures Kept(s, Do(w, s, op).0, from, LoadedBy(w, s, op))
  {
    match op {
      case Start(serial, port, elf) => StartKeeps(w, s, serial, port, elf, from);
      case Connect(serial, port, elf) => ConnectKeeps(w, s, serial, port, elf, from);
      case Continue => ContinueKeeps(w, s, from);
      case Halt => HaltKeeps(w, s, from);
      case WaitStopped => WaitKeeps(w, s, from);
      case Step(over) => StepKeeps(w, s, over, from);
      case ResetHalt => ResetHaltKeeps(w, s, from);
      case Inspect(badArgument, queries) =>
        if s.state == Halted && badArgument.None? {
          QueriesKeep(w, s, queries, from);
        }
      case Load(authorization) => LoadKeeps(w, s, authorization, from);
      case PollEvents => PollKeeps(w, s, from);
      case Stop => CleanupKeeps(w, s, INVALID_STATE, "", from);
      case Fail(cause) => CleanupKeeps(w, s, cause, "", from);
      case Cancel(operation) => CleanupKeeps(w, s, INVALID_STATE, operation, from);
    }
  }

  /** How many loads of a run succeeded with a matching authorisation. */
  function SuccessfulLoads(w: World, s: Session, ops: seq<Op>): nat
    decreases |ops|
  {
    if ops == [] then 0 else LoadedBy(w, s, ops[0]) + SuccessfulLoads(w, Do(w, s, ops[0]).0, ops[1..])
  }

  lemma {:induction false} RunKeepsInv(w: World, s: Session, ops: seq<Op>, from: Option<State>)
    requires Inv(s, from)
    ensures KeptRun(s, DoAll(w, s, ops), from, SuccessfulLoads(w, s, ops))
    decreases |ops|
  {
    if ops != [] {
      OpKeeps(w, s, ops[0], from);
      RunKeepsInv(w, Do(w, s, ops[0]).0, ops[1..], from);
    }
  }

  /** In every run, from a new engine or one taking over a started lifecycle, against any transport: the State events
      form one path of lifecycle edges from the origin to the engine's state; the engine never rests in Failed,
      Cancelling or Disconnecting; it has shut its transport down once for every SessionStopped; it has published every
      text of every returned batch, once and in order; and Loaded once for every fully successful authorised load. */
  lemma {:induction false} EngineRuns(w: World, generation: nat, ops: seq<Op>)
    requires generation <= U64_MAX
    ensures var s := DoAll(w, New(), ops);
            var m := SumOf(s, Some(Idle));
            m.connected && m.at == Some(s.state) && Settled(s.state)
            && m.shutdowns == m.ends && m.shown == m.answered && m.loads == SuccessfulLoads(w, New(), ops)
    ensures var s := DoAll(w, Started(generation), ops);
            var from := if generation > 0 then Some(GdbStarting) else None;
            var m := SumOf(s, from);
            m.connected && (m.at.Some? ==> m.at == Some(s.state)) && Settled(s.state)
            && m.shutdowns == m.ends && m.shown == m.answered && m.loads == SuccessfulLoads(w, Started(generation), ops)
  {
    RunKeepsInv(w, New(), ops, Some(Idle));
    RunKeepsInv(w, Started(generation), ops, if generation > 0 then Some(GdbStarting) else None);
    StaysKnown(DoAll(w, New(), ops).trace, Idle);
  }

  lemma {:induction false} StaysKnown(trace: seq<Entry>, at: State)
    ensures Sum(trace, Some(at)).at.Some?
  {
    if trace != [] {
      StaysKnown(trace[..|trace| - 1], at);
    }
  }

  // ---- Down to GDB's output ----

  /** The records of the batches that the transport returned, concatenated. */
  function Fed(trace: seq<Entry>): seq<MiRecord> {
    if trace == [] then []
    else Fed(trace[..|trace| - 1]) + Batch(trace[|trace| - 1])
  }

  function Batch(entry: Entry): seq<MiRecord> {
    match entry
    case Ca(CommandCall(_, _, Ok(output))) => output.records
    case Ca(WaitCall(Ok(records))) => records
    case Ca(PollCall(Ok(records))) => records
    case _ => []
  }

  lemma RecordTextsStep(records: seq<MiRecord>)
    requires records != []
    ensures RecordTexts(records) == RecordTexts(records[..|records| - 1]) + RecordText(records[|records| - 1])
  {}

  lemma {:induction false} RecordTextsAppend(a: seq<MiRecord>, b: seq<MiRecord>)
    ensures RecordTexts(a + b) == RecordTexts(a) + RecordTexts(b)
    decreases |b|
  {
    if b == [] {
      AppendEmpty(a);
      AppendEmpty(RecordTexts(a));
    } else {
      hide *;
      var n, whole := |b| - 1, a + b;
      RecordTextsAppend(a, b[..n]);
      RecordTextsStep(b);
      RecordTextsStep(whole);
      assert whole[..|whole| - 1] == a + b[..n] && whole[|whole| - 1] == b[n];
      AppendAssociates(RecordTexts(a), RecordTexts(b[..n]), RecordText(b[n]));
    }
  }

  lemma AbsorbFed(m: Summary, entry: Entry)
    ensures Absorb(m, entry).answered == m.answered + RecordTexts(Batch(entry))
  {}

  lemma {:induction false} AnsweredIsFed(trace: seq<Entry>, from: Option<State>)
    ensures Sum(trace, from).answered == RecordTexts(Fed(trace))
  {
    if trace != [] {
      hide RecordTexts;
      hide Batch;
      hide Absorb;
      var before, last := trace[..|trace| - 1], trace[|trace| - 1];
      AnsweredIsFed(before, from);
      AbsorbFed(Sum(before, from), last);
      RecordTextsAppend(Fed(before), Batch(last));
    }
  }

  // ---- Rejections ----

  /** The states in which the table of docs/architecture.md accepts an operation. */
  predicate Accepted(state: State, op: Op) {
    match op
    case Start(_, _, _) => state == Idle
    case Connect(_, _, _) => state == GdbStarting
    case Continue => state == Halted
    case Halt => state == Running
    case WaitStopped => state == Running
    case Step(_) => state == Halted
    case ResetHalt => state == Halted || state == Running
    case Inspect(_, _) => state == Halted
    case Load(_) => state == Halted
    case _ => true
  }

  /** Refused before anything is done: wrong state, bad argument, missing probe or wrong authorisation. */
  predicate Refused(s: Session, op: Op) {
    !Accepted(s.state, op) ||
    match op
    case Start(serial, _, elf) => BadSerial(serial) || elf.None?
    case Connect(serial, _, elf) => s.generation == 0 || BadSerial(serial) || elf.None?
    case Inspect(badArgument, queries) => badArgument.Some?
    case Load(authorization) => !Authorized(s, authorization)
    case _ => s.state == Idle
  }

  /** A refused operation issues no call and leaves state and events alone. */
  lemma {:induction false} RefusedUntouched(w: World, s: Session, op: Op)
    requires Refused(s, op)
    ensures Do(w, s, op).0 == s
    ensures !Accepted(s.state, op) ==> Do(w, s, op).1 == Err(INVALID_STATE)
  {
    match op {
      case Load(authorization) => assert DoLoad(w, s, authorization).0 == s;
      case _ =>
    }
  }

  lemma ConnectReaches(w: World, s: Session, serial: string, port: nat, elf: Option<string>)
    requires s.state == GdbStarting && s.generation > 0 && !BadSerial(serial) && elf.Some?
    ensures DoConnect(w, s, serial, port, elf).0.calls > s.calls
  {}

  /** An operation reaches the transport exactly when it is not refused. */
  lemma {:induction false} ReachesTransportIff(w: World, s: Session, op: Op)
    requires op.Inspect? ==> op.queries != []
    ensures Do(w, s, op).0.calls > s.calls <==> !Refused(s, op)
  {
    if Refused(s, op) {
      RefusedUntouched(w, s, op);
    } else {
      NotRefusedReaches(w, s, op);
    }
  }

  lemma {:induction false} NotRefusedReaches(w: World, s: Session, op: Op)
    requires !Refused(s, op) && (op.Inspect? ==> op.queries != [])
    ensures Do(w, s, op).0.calls > s.calls
  {
    match op {
      case Inspect(badArgument, queries) =>
        QueriesOnlyAdd(w, Run(w, s, Inspection(queries[0].command), false, WantDone).0, queries[1..]);
      case Start(serial, port, elf) =>
        ConnectReaches(w, Prepare(s, serial, port), serial, port, elf);
      case Connect(serial, port, elf) =>
        ConnectReaches(w, s, serial, port, elf);
      case _ =>
    }
  }

  lemma {:induction false} QueriesOnlyAdd(w: World, s: Session, queries: seq<Query>)
    ensures DoQueries(w, s, queries).0.calls >= s.calls
    decreases |queries|
  {
    if queries != [] {
      QueriesOnlyAdd(w, Run(w, s, Inspection(queries[0].command), false, WantDone).0, queries[1..]);
    }
  }

  /** An idle engine stays exactly as it is until it is started again: nothing follows the end of a session. */
  lemma {:induction false} IdleIsFinal(w: World, s: Session, ops: seq<Op>)
    requires s.state == Idle && forall i :: 0 <= i < |ops| ==> !ops[i].Start?
    ensures DoAll(w, s, ops) == s
    decreases |ops|
  {
    if ops != [] {
      assert !ops[0].Start?;
      IdleIsFinal(w, s, ops[1..]);
    }
  }

  // ---- Stops ----

  /** A reset-halt leaves a halted engine halted and halts a running one as soon as the reset is accepted, but announces
      the stop only when the frame query then returns a frame. */
  lemma {:induction false} ResetHaltAnnounces(w: World, s: Session, from: Option<State>)
    requires Inv(s, from) && (s.state == Halted || s.state == Running)
    ensures var (s', r) := DoResetHalt(w, s);
            var announced := SumOf(s', from).stops == SumOf(s, from).stops + 1;
            && s'.state == (if Succeeds(w, s.calls, WantDone) then Halted else s.state)
            && (announced <==> Succeeds(w, s.calls, WantDone) && Succeeds(w, s.calls + 1, WantDone)
                               && FrameOf(w.command(s.calls + 1).value.results).Some?)
            && (!announced ==> SumOf(s', from).stops == SumOf(s, from).stops)
            && (r.Ok? <==> announced)
  {
    hide Sum;
    RunKeeps(w, s, ResetTarget, false, WantDone, from);
    var (s1, reset) := Run(w, s, ResetTarget, false, WantDone);
    if reset.Ok? {
      if s.state == Running {
        TransitionKeeps(s1, Halted, from);
        AnnounceKeeps(w, Transition(s1, Halted), from);
      } else {
        AnnounceKeeps(w, s1, from);
      }
    }
  }

  lemma {:induction false} AnnounceKeeps(w: World, s: Session, from: Option<State>)
    requires Good(s, from)
    ensures var (s1, query) := Run(w, s, FrameInfo, false, WantDone);
            SumOf(s1, from).stops == SumOf(s, from).stops
            && forall frame ::
                 SumOf(Emit(Emit(s1, Reset(s.generation)), Stopped(s.generation, "reset", frame)), from).stops
                 == SumOf(s, from).stops + 1
  {
    RunKeeps(w, s, FrameInfo, false, WantDone, from);
    var (s1, query) := Run(w, s, FrameInfo, false, WantDone);
    EmitKeeps(s1, Reset(s.generation), from);
    var s2 := Emit(s1, Reset(s.generation));
    forall frame {
      EmitKeeps(s2, Stopped(s.generation, "reset", frame), from);
    }
  }

  /** Without a restart, a session that is running has not ended, and one that is idle has ended exactly once. */
  lemma {:induction false} EndsOnce(w: World, s: Session, ops: seq<Op>, from: Option<State>)
    requires Inv(s, from) && SumOf(s, from).ends == (if s.state == Idle then 1 else 0)
    requires forall i :: 0 <= i < |ops| ==> !ops[i].Start?
    ensures var s' := DoAll(w, s, ops); SumOf(s', from).ends == if s'.state == Idle then 1 else 0
    decreases |ops|
  {
    if ops != [] {
      assert !ops[0].Start?;
      OpKeeps(w, s, ops[0], from);
      if s.state == Idle {
        IdleIsFinal(w, s, [ops[0]]);
        assert DoAll(w, s, [ops[0]]) == Do(w, s, ops[0]).0;
      }
      EndsOnce(w, Do(w, s, ops[0]).0, ops[1..], from);
    }
  }
}
