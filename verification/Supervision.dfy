/** The shared cancellation flag of an owned debug session (`owned_session.rs`, `debug_server.rs`, the readers of
    `gdb_process.rs` and the forwarders of `agent.rs`) under every interleaving of the threads that write it. Each
    step is one atomic access of one thread. */
module Supervision {
  import opened Common

  // ---- The OpenOCD log ----

  const LOG_CAP := 1024 * 1024

  function Join(lines: seq<string>): string {
    if lines == [] then [] else Join(lines[..|lines| - 1]) + (lines[|lines| - 1] + "\n")
  }

  /** `is_target_connection_loss`. */
  predicate TargetLoss(text: string) {
    var lower := Lower(text);
    (Contains(lower, "target voltage") && (Contains(lower, "low") || Contains(lower, "0.0")))
    || Contains(lower, "target examination failed")
    || Contains(lower, "unable to connect to target")
  }

  /** Whether one line is a probe transport failure, judged by the table of `programming.rs`. */
  type ProbeTable = string -> bool

  predicate FatalLine(probe: ProbeTable, line: string) {
    probe(line) || TargetLoss(line)
  }

  /** `diagnosed_code` finds a cause in the stored log. */
  predicate Diagnosed(probe: ProbeTable, lines: seq<string>) {
    (exists i :: 0 <= i < |lines| && probe(lines[i])) || TargetLoss(Join(lines))
  }

  lemma LowerAppend(a: string, b: string)
    ensures Lower(a + b) == Lower(a) + Lower(b)
  {}

  lemma {:induction false} ContainsWithin(before: string, s: string, after: string, part: string)
    requires Contains(s, part)
    ensures Contains(before + s + after, part)
  {
    var i :| 0 <= i <= |s| && OccursAt(s, part, i);
    var whole := before + s + after;
    assert whole[|before| + i..|before| + i + |part|] == s[i..i + |part|];
    assert OccursAt(whole, part, |before| + i);
  }

  lemma {:induction false} LossWithin(before: string, line: string, after: string)
    requires TargetLoss(line)
    ensures TargetLoss(before + line + after)
  {
    LowerAppend(before + line, after);
    LowerAppend(before, line);
    var a, s, b := Lower(before), Lower(line), Lower(after);
    if Contains(s, "target examination failed") {
      ContainsWithin(a, s, b, "target examination failed");
    } else if Contains(s, "unable to connect to target") {
      ContainsWithin(a, s, b, "unable to connect to target");
    } else {
      ContainsWithin(a, s, b, "target voltage");
      if Contains(s, "low") {
        ContainsWithin(a, s, b, "low");
      } else {
        ContainsWithin(a, s, b, "0.0");
      }
    }
  }

  /** A fatal line that was stored is found again in the whole log. */
  lemma {:induction false} StoredLineIsDiagnosed(probe: ProbeTable, lines: seq<string>, i: nat)
    requires i < |lines| && FatalLine(probe, lines[i])
    ensures Diagnosed(probe, lines)
  {
    if TargetLoss(lines[i]) {
      JoinKeepsLoss(lines, i);
    }
  }

  lemma {:induction false} JoinKeepsLoss(lines: seq<string>, i: nat)
    requires i < |lines| && TargetLoss(lines[i])
    ensures TargetLoss(Join(lines))
  {
    var n := |lines| - 1;
    if i == n {
      LossWithin(Join(lines[..n]), lines[n], "\n");
      AppendAssociates(Join(lines[..n]), lines[n], "\n");
    } else {
      JoinKeepsLoss(lines[..n], i);
      LossWithin("", Join(lines[..n]), lines[n] + "\n");
      assert "" + Join(lines[..n]) == Join(lines[..n]);
    }
  }

  // ---- The threads ----

  datatype Child = Alive | Exited | Reaped

  datatype ReaderPc = Reading | Signalling

  datatype GdbReaderPc = GdbReading | GdbSignalling | GdbDone

  datatype SupervisorPc =
    | Checking
    | PollingGdb
    | PollingServer(gdbExited: bool)
    | Publishing(gdbExited: bool)
    | Raising
    | ReapingGdb
    | ReapingServer
    | Finished

  datatype OwnerPc = Working | Cancelling | ClosingGdb | StoppingServer | Joining | Ended

  /** What the supervisor reports as `supervisor_failure`: GDB_EXITED or OPENOCD_EXITED. */
  datatype Culprit = Gdb | OpenOcd

  /** What the supervisor works on. */
  datatype Core = Core(flag: bool, failure: Option<Culprit>, supervisor: SupervisorPc, gdb: Child, server: Child)

  /** Why a session may have to end, as far as it has been published; `dropped` notes a fatal line that came while the
      log was full, `external` the token that the startup forwarder watches. */
  datatype Evidence = Evidence(requested: bool, queuedError: bool, ownerStopped: bool, external: bool,
                               lines: seq<string>, logSize: nat, dropped: bool)

  /** The other threads; `users` counts the controllers between announcing a cancellation and raising the flag. */
  datatype Threads = Threads(users: nat, stdout: ReaderPc, stderr: ReaderPc, gdbReader: GdbReaderPc, owner: OwnerPc)

  datatype System = System(core: Core, evidence: Evidence, threads: Threads)

  function Init(): System {
    System(Core(false, None, Checking, Alive, Alive), Evidence(false, false, false, false, [], 0, false),
           Threads(0, Reading, Reading, GdbReading, Working))
  }

  datatype Step =
    | UserAnnounces | UserCancels
    | ExternalCancels | ForwarderCancels
    | ReadLine(onStderr: bool, line: string) | SignalLine(onStderr: bool)
    | GdbOutputFails | GdbSignals | GdbOutputTruncated | GdbOutputEnds
    | Supervise
    | OwnerStops | OwnerCancels | OwnerCleansUp | OwnerContinues
    | GdbExits | ServerExits

  function Supervised(c: Core): Core {
    match c.supervisor
    case Checking => c.(supervisor := if c.flag then ReapingGdb else PollingGdb)
    case PollingGdb => c.(gdb := if c.gdb.Alive? then Alive else Reaped, supervisor := PollingServer(!c.gdb.Alive?))
    case PollingServer(gdbExited) =>
      c.(server := if c.server.Alive? then Alive else Reaped,
         supervisor := if gdbExited || !c.server.Alive? then Publishing(gdbExited) else Checking)
    case Publishing(gdbExited) => c.(failure := Some(if gdbExited then Gdb else OpenOcd), supervisor := Raising)
    case Raising => c.(flag := true, supervisor := ReapingGdb)
    case ReapingGdb => c.(gdb := Reaped, supervisor := ReapingServer)
    case ReapingServer => c.(server := Reaped, supervisor := Finished)
    case Finished => c
  }

  function Raise(s: System): System {
    s.(core := s.core.(flag := true))
  }

  function OwnerStep(s: System): System {
    match s.threads.owner
    case Cancelling => Raise(s).(threads := s.threads.(owner := ClosingGdb))
    case ClosingGdb => s.(core := s.core.(gdb := Reaped), threads := s.threads.(owner := StoppingServer))
    case StoppingServer => s.(core := s.core.(server := Reaped), threads := s.threads.(owner := Joining))
    case Joining => if s.core.supervisor.Finished? then s.(threads := s.threads.(owner := Ended)) else s
    case _ => s
  }

  function Store(probe: ProbeTable, e: Evidence, line: string): Evidence {
    if e.logSize < LOG_CAP then e.(lines := e.lines + [line], logSize := e.logSize + |line| + 1)
    else e.(dropped := e.dropped || FatalLine(probe, line))
  }

  function ReaderOf(t: Threads, onStderr: bool): ReaderPc {
    if onStderr then t.stderr else t.stdout
  }

  function WithReader(t: Threads, onStderr: bool, pc: ReaderPc): Threads {
    if onStderr then t.(stderr := pc) else t.(stdout := pc)
  }

  function UserStep(s: System, step: Step): System {
    var (e, t) := (s.evidence, s.threads);
    match step
    case UserAnnounces => s.(evidence := e.(requested := true), threads := t.(users := t.users + 1))
    case UserCancels => if t.users > 0 then Raise(s).(threads := t.(users := t.users - 1)) else s
    case ExternalCancels => s.(evidence := e.(external := true))
    case ForwarderCancels => if e.external then Raise(s) else s
    case _ => s
  }

  function ReaderStep(probe: ProbeTable, s: System, step: Step): System {
    var (e, t) := (s.evidence, s.threads);
    match step
    case ReadLine(onStderr, line) =>
      if ReaderOf(t, onStderr).Reading? then
        s.(evidence := Store(probe, e, line),
           threads := WithReader(t, onStderr, if FatalLine(probe, line) then Signalling else Reading))
      else s
    case SignalLine(onStderr) =>
      if ReaderOf(t, onStderr).Signalling? then Raise(s).(threads := WithReader(t, onStderr, Reading)) else s
    case GdbOutputFails =>
      if t.gdbReader.GdbReading? then s.(evidence := e.(queuedError := true), threads := t.(gdbReader := GdbSignalling))
      else s
    case GdbSignals => if t.gdbReader.GdbSignalling? then Raise(s).(threads := t.(gdbReader := GdbDone)) else s
    case GdbOutputTruncated =>
      if t.gdbReader.GdbReading? then s.(evidence := e.(queuedError := true), threads := t.(gdbReader := GdbDone))
      else s
    case GdbOutputEnds => if t.gdbReader.GdbReading? then s.(threads := t.(gdbReader := GdbDone)) else s
    case _ => s
  }

  function OwnerEnters(s: System, step: Step): System {
    var (e, t) := (s.evidence, s.threads);
    if !t.owner.Working? then s
    else
      match step
      case OwnerStops => Raise(s).(evidence := e.(ownerStopped := true), threads := t.(owner := ClosingGdb))
      case OwnerCancels => s.(evidence := e.(requested := true), threads := t.(owner := Cancelling))
      case OwnerCleansUp => s.(threads := t.(owner := ClosingGdb))
      case _ => s
  }

  /** One step of one thread; a step that its thread cannot take now changes nothing. */
  function Apply(probe: ProbeTable, s: System, step: Step): System {
    match step
    case Supervise => s.(core := Supervised(s.core))
    case OwnerContinues => OwnerStep(s)
    case GdbExits => if s.core.gdb.Alive? then s.(core := s.core.(gdb := Exited)) else s
    case ServerExits => if s.core.server.Alive? then s.(core := s.core.(server := Exited)) else s
    case OwnerStops => OwnerEnters(s, step)
    case OwnerCancels => OwnerEnters(s, step)
    case OwnerCleansUp => OwnerEnters(s, step)
    case UserAnnounces => UserStep(s, step)
    case UserCancels => UserStep(s, step)
    case ExternalCancels => UserStep(s, step)
    case ForwarderCancels => UserStep(s, step)
    case _ => ReaderStep(probe, s, step)
  }

  function ApplyAll(probe: ProbeTable, s: System, steps: seq<Step>): System {
    if steps == [] then s else Apply(probe, ApplyAll(probe, s, steps[..|steps| - 1]), steps[|steps| - 1])
  }

  // ---- Causes ----

  predicate StoredFatalLine(probe: ProbeTable, e: Evidence) {
    exists i :: 0 <= i < |e.lines| && FatalLine(probe, e.lines[i])
  }

  /** Some writer other than a user has published why the session must end. */
  predicate FailurePublished(probe: ProbeTable, s: System) {
    s.core.failure.Some? || s.evidence.queuedError || s.evidence.ownerStopped || s.evidence.external
    || StoredFatalLine(probe, s.evidence)
  }

  predicate Explained(probe: ProbeTable, s: System) {
    s.evidence.requested || FailurePublished(probe, s)
  }

  predicate CoreInv(c: Core) {
    && (c.supervisor.Raising? ==> c.failure.Some?)
    && (c.supervisor.ReapingGdb? || c.supervisor.ReapingServer? || c.supervisor.Finished? ==> c.flag)
    && (c.supervisor.ReapingServer? || c.supervisor.Finished? ==> c.gdb.Reaped?)
    && (c.supervisor.Finished? ==> c.server.Reaped?)
  }

  predicate OwnerInv(s: System) {
    var owner := s.threads.owner;
    && (owner.StoppingServer? || owner.Joining? || owner.Ended? ==> s.core.gdb.Reaped?)
    && (owner.Joining? || owner.Ended? ==> s.core.server.Reaped?)
    && (owner.Ended? ==> s.core.supervisor.Finished?)
  }

  predicate CauseInv(probe: ProbeTable, s: System) {
    && (s.threads.users > 0 || s.threads.owner.Cancelling? ==> s.evidence.requested)
    && (s.threads.gdbReader.GdbSignalling? ==> s.evidence.queuedError)
    && (s.evidence.dropped ==> s.evidence.logSize >= LOG_CAP)
    && (s.threads.stdout.Signalling? || s.threads.stderr.Signalling? ==>
          StoredFatalLine(probe, s.evidence) || s.evidence.dropped)
    && (s.core.flag ==> Explained(probe, s) || s.evidence.dropped)
  }

  predicate Inv(probe: ProbeTable, s: System) {
    CoreInv(s.core) && OwnerInv(s) && CauseInv(probe, s)
  }

  lemma {:induction false} StoreKeeps(probe: ProbeTable, e: Evidence, line: string)
    ensures var e' := Store(probe, e, line);
            (StoredFatalLine(probe, e) ==> StoredFatalLine(probe, e'))
            && (FatalLine(probe, line) ==> StoredFatalLine(probe, e') || e'.dropped)
  {
    var e' := Store(probe, e, line);
    if i :| 0 <= i < |e.lines| && FatalLine(probe, e.lines[i]) {
      assert e'.lines[i] == e.lines[i];
    }
    if e.logSize < LOG_CAP {
      assert e'.lines[|e.lines|] == line;
    }
  }

  lemma SuperviseKeeps(c: Core)
    requires CoreInv(c)
    ensures CoreInv(Supervised(c)) && (c.flag ==> Supervised(c).flag)
    ensures c.failure.Some? ==> Supervised(c).failure.Some?
    ensures Supervised(c).flag && !c.flag ==> c.failure.Some?
    ensures (c.gdb.Reaped? ==> Supervised(c).gdb.Reaped?) && (c.server.Reaped? ==> Supervised(c).server.Reaped?)
    ensures c.supervisor.Finished? ==> Supervised(c) == c
  {}

  lemma {:induction false} StepKeeps(probe: ProbeTable, s: System, step: Step)
    requires Inv(probe, s)
    ensures Inv(probe, Apply(probe, s, step))
    ensures s.core.flag ==> Apply(probe, s, step).core.flag
  {
    match step {
      case ReadLine(onStderr, line) => StoreKeeps(probe, s.evidence, line);
      case Supervise => SuperviseKeeps(s.core);
      case OwnerContinues => OwnerKeeps(probe, s);
      case _ => assert Apply(probe, s, step).evidence.lines == s.evidence.lines;
    }
  }

  lemma {:induction false} OwnerKeeps(probe: ProbeTable, s: System)
    requires Inv(probe, s)
    ensures Inv(probe, OwnerStep(s)) && (s.core.flag ==> OwnerStep(s).core.flag)
  {
    assert OwnerStep(s).evidence == s.evidence;
  }

  lemma {:induction false} Reachable(probe: ProbeTable, steps: seq<Step>)
    ensures Inv(probe, ApplyAll(probe, Init(), steps))
  {
    if steps != [] {
      Reachable(probe, steps[..|steps| - 1]);
      StepKeeps(probe, ApplyAll(probe, Init(), steps[..|steps| - 1]), steps[|steps| - 1]);
    }
  }

  /** The flag is never cleared. */
  lemma {:induction false} FlagStays(probe: ProbeTable, s: System, steps: seq<Step>)
    requires Inv(probe, s) && s.core.flag
    ensures ApplyAll(probe, s, steps).core.flag && Inv(probe, ApplyAll(probe, s, steps))
  {
    if steps != [] {
      FlagStays(probe, s, steps[..|steps| - 1]);
      StepKeeps(probe, ApplyAll(probe, s, steps[..|steps| - 1]), steps[|steps| - 1]);
    }
  }

  /** In every interleaving: a set flag has a published cause unless a fatal line came while the log was full; when no
      user has asked, the cause is a failure; a finished supervisor has set the flag and reaped both children; an owner
      that is done has seen the supervisor finish. */
  lemma {:induction false} FlagIsExplained(probe: ProbeTable, steps: seq<Step>)
    ensures var s := ApplyAll(probe, Init(), steps);
            var (c, e) := (s.core, s.evidence);
            && (c.flag ==> Explained(probe, s) || (e.dropped && e.logSize >= LOG_CAP))
            && (c.flag && !e.requested && !e.dropped ==> FailurePublished(probe, s))
            && (StoredFatalLine(probe, e) ==> Diagnosed(probe, e.lines))
            && (c.supervisor.Finished? ==> c.flag && c.gdb.Reaped? && c.server.Reaped?)
            && (s.threads.owner.Ended? ==> c.supervisor.Finished?)
  {
    Reachable(probe, steps);
    var e := ApplyAll(probe, Init(), steps).evidence;
    if i :| 0 <= i < |e.lines| && FatalLine(probe, e.lines[i]) {
      StoredLineIsDiagnosed(probe, e.lines, i);
    }
  }

  /** Once the log is full, any fatal line in a session with no other cause sets the flag without publishing one. */
  lemma {:induction false} FullLogHidesCause(probe: ProbeTable, s: System, onStderr: bool, line: string)
    requires s.evidence.logSize >= 0x10_0000 && !Explained(probe, s)
    requires ReaderOf(s.threads, onStderr).Reading? && FatalLine(probe, line)
    ensures Unexplained(probe, Apply(probe, Apply(probe, s, ReadLine(onStderr, line)), SignalLine(onStderr)))
  {
    assert Apply(probe, s, ReadLine(onStderr, line)).evidence.lines == s.evidence.lines;
  }

  predicate Unexplained(probe: ProbeTable, s: System) {
    s.core.flag && !Explained(probe, s)
  }

  predicate UnexplainedAfter(probe: ProbeTable, steps: seq<Step>) {
    Unexplained(probe, ApplyAll(probe, Init(), steps))
  }

  function NoProbeFailure(line: string): bool {
    false
  }

  /** That can happen: one long harmless line fills the log. */
  lemma {:induction false} FullLogIsReachable()
    ensures exists steps :: UnexplainedAfter(NoProbeFailure, steps)
  {
    var long := seq(LOG_CAP, i => 'x');
    var line := "unable to connect to target";
    HarmlessLine(long);
    assert Lower(line) == line && OccursAt(line, line, 0);
    var full := Apply(NoProbeFailure, Init(), ReadLine(false, long));
    assert full.evidence.lines == [long] && full.evidence.logSize == LOG_CAP + 1;
    FullLogHidesCause(NoProbeFailure, full, false, line);
    ThreeSteps(NoProbeFailure, ReadLine(false, long), ReadLine(false, line), SignalLine(false));
    assert UnexplainedAfter(NoProbeFailure, [ReadLine(false, long), ReadLine(false, line), SignalLine(false)]);
  }

  lemma {:induction false} ThreeSteps(probe: ProbeTable, a: Step, b: Step, c: Step)
    ensures ApplyAll(probe, Init(), [a, b, c]) == Apply(probe, Apply(probe, Apply(probe, Init(), a), b), c)
  {
    assert [a, b, c][..2] == [a, b] && [a, b][..1] == [a] && [a][..0] == [];
    assert ApplyAll(probe, Init(), [a]) == Apply(probe, Init(), a);
    assert ApplyAll(probe, Init(), [a, b]) == Apply(probe, ApplyAll(probe, Init(), [a]), b);
  }

  lemma {:induction false} HarmlessLine(line: string)
    requires forall i :: 0 <= i < |line| ==> line[i] == 'x'
    ensures !TargetLoss(line)
  {
    var lower := Lower(line);
    FirstMissing(lower, "target voltage");
    FirstMissing(lower, "target examination failed");
    FirstMissing(lower, "unable to connect to target");
  }

  lemma {:induction false} FirstMissing(s: string, part: string)
    requires part != [] && forall i :: 0 <= i < |s| ==> s[i] != part[0]
    ensures !Contains(s, part)
  {
    forall i | 0 <= i <= |s|
      ensures !OccursAt(s, part, i)
    {
      if i + |part| <= |s| {
        assert s[i..i + |part|][0] == s[i];
      }
    }
  }

  // ---- What the supervisor finds ----

  /** Whoever the supervisor blames is dead: it has found GDB exited, or the server exited while GDB was running. */
  predicate Blames(c: Core) {
    && (c.supervisor == PollingServer(true) || c.supervisor == Publishing(true) || c.failure == Some(Gdb)
        ==> c.gdb.Reaped?)
    && (c.supervisor == Publishing(false) || c.failure == Some(OpenOcd) ==> c.server.Reaped?)
  }

  lemma {:induction false} CulpritIsDead(probe: ProbeTable, steps: seq<Step>)
    ensures Blames(ApplyAll(probe, Init(), steps).core)
  {
    if steps != [] {
      CulpritIsDead(probe, steps[..|steps| - 1]);
      BlamesStep(probe, ApplyAll(probe, Init(), steps[..|steps| - 1]), steps[|steps| - 1]);
    }
  }

  lemma {:induction false} BlamesStep(probe: ProbeTable, s: System, step: Step)
    requires Blames(s.core)
    ensures Blames(Apply(probe, s, step).core)
  {
    if step.OwnerContinues? {
      assert OwnerStep(s).core.failure == s.core.failure;
    }
  }

  /** A dead child is noticed in the supervisor's next round: GDB is blamed if it is dead, otherwise the server, and the
      flag is raised. A round without a dead child or a raised flag changes nothing. */
  lemma {:induction false} DeathIsNoticed(c: Core)
    requires c.supervisor.Checking? && !c.flag
    ensures var d := Supervised(Supervised(Supervised(c)));
            if c.gdb.Alive? && c.server.Alive? then d == c
            else
              var e := Supervised(Supervised(d));
              e.flag && e.failure == Some(if c.gdb.Alive? then OpenOcd else Gdb)
  {}

  // ---- Joining ----

  /** How many of its own steps the supervisor still needs once the server is dead. */
  function Rank(pc: SupervisorPc): nat {
    match pc
    case Checking => 7
    case PollingGdb => 6
    case PollingServer(_) => 5
    case Publishing(_) => 4
    case Raising => 3
    case ReapingGdb => 2
    case ReapingServer => 1
    case Finished => 0
  }

  lemma RankDrops(probe: ProbeTable, s: System, step: Step)
    requires s.core.server.Reaped?
    ensures var c := Apply(probe, s, step).core;
            c.server.Reaped? && Rank(c.supervisor) <= Rank(s.core.supervisor)
            && (step.Supervise? && !s.core.supervisor.Finished? ==> Rank(c.supervisor) < Rank(s.core.supervisor))
  {}

  function CountSupervise(steps: seq<Step>): nat {
    if steps == [] then 0
    else CountSupervise(steps[..|steps| - 1]) + (if steps[|steps| - 1].Supervise? then 1 else 0)
  }

  /** Once the owner waits for the supervisor, seven of the supervisor's steps finish it, whatever runs in between. */
  lemma {:induction false} JoinEnds(probe: ProbeTable, s: System, steps: seq<Step>)
    requires Inv(probe, s) && s.threads.owner.Joining?
    ensures var s' := ApplyAll(probe, s, steps);
            Inv(probe, s') && s'.core.server.Reaped?
            && Rank(s'.core.supervisor) <= (if CountSupervise(steps) >= Rank(s.core.supervisor) then 0
                                            else Rank(s.core.supervisor) - CountSupervise(steps))
            && (CountSupervise(steps) >= 7 ==> s'.core.supervisor.Finished?)
  {
    if steps != [] {
      var init, last := steps[..|steps| - 1], steps[|steps| - 1];
      JoinEnds(probe, s, init);
      StepKeeps(probe, ApplyAll(probe, s, init), last);
      RankDrops(probe, ApplyAll(probe, s, init), last);
    }
  }
}
