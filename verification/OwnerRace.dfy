/** The owner's operation (`execute` of `owned_session.rs` over the command loop of `gdb_process.rs`) as single
    accesses, interleaved with the threads of `Supervision` and the two readers that fill the queue: which end a
    cancellation or a failure gets depends on what the owner happens to look at first. */
module OwnerRace {
  import opened Common
  import opened MiSyntax
  import S = Supervision
  import SessionModel
  import OwnedModel
  import T = Transport

  // ---- The owner ----

  /** Every error of a reader is fatal for its session. */
  predicate FromReader(e: Failure) {
    e.category == Debugger && OwnedModel.Fatal(e)
  }

  type ReaderError = e: Failure | FromReader(e) witness T.EXITED

  /** An error of the engine, of GDB or of a deadline. */
  type OwnError = e: Failure | e.category != Interrupted witness T.EXITED

  /** Where a command is. */
  datatype Stage = Entering | Draining | Waiting | Receiving | Aborting

  datatype End =
    | Done(error: Option<Failure>)
    | Broken(cause: Failure)
    | Cancelled
    | Failed(cause: Failure)

  /** What a waiting loop listens for: an answer to the token, and with `wait` a stop as well; a loop that waits for a
      stop without having written a command has no token. A query is the frame query of the poll. */
  datatype Exchange = Exchange(query: bool, token: Option<nat>, wait: bool, answered: bool, stopped: bool)

  function NewExchange(query: bool, token: nat, wait: bool): Exchange {
    Exchange(query, Some(token), wait, false, !wait)
  }

  function Listening(): Exchange {
    Exchange(false, None, true, true, false)
  }

  function Hear(c: Exchange, record: MiRecord): Exchange {
    var answered := c.answered || (c.token.Some? && T.Answers(record, c.token.value));
    c.(answered := answered, stopped := c.stopped || ((c.wait || answered) && T.IsStop(record)))
  }

  predicate Enough(c: Exchange) {
    c.answered && c.stopped
  }

  function HearAll(c: Exchange, batch: seq<MiRecord>): Exchange {
    if batch == [] then c else Hear(HearAll(c, batch[..|batch| - 1]), batch[|batch| - 1])
  }

  /** A loop has enough exactly when the records since the write satisfy the transport's command. */
  lemma {:induction false} HearsEnoughIff(query: bool, token: nat, wait: bool, batch: seq<MiRecord>)
    ensures var c := HearAll(NewExchange(query, token, wait), batch);
            && c.token == Some(token) && c.wait == wait
            && (c.answered <==> T.HasAnswer(batch, token)) && (c.stopped <==> (wait ==> T.HasStop(batch)))
            && (Enough(c) <==> T.Satisfied(batch, token, wait))
  {
    if batch != [] {
      var n := |batch| - 1;
      HearsEnoughIff(query, token, wait, batch[..n]);
      assert T.HasAnswer(batch, token) <==> T.HasAnswer(batch[..n], token) || T.Answers(batch[n], token) by {
        if i :| 0 <= i < n && T.Answers(batch[i], token) {
          assert T.Answers(batch[..n][i], token);
        }
      }
      assert T.HasStop(batch) <==> T.HasStop(batch[..n]) || T.IsStop(batch[n]) by {
        if i :| 0 <= i < n && T.IsStop(batch[i]) {
          assert T.IsStop(batch[..n][i]);
        }
      }
    }
  }

  /** Where the operation is. `left` counts the calls that it can still make after the one it is in. */
  datatype Phase =
    | Polling
    | CheckingServer
    | Between(left: nat)
    | InCommand(command: Exchange, left: nat, stage: Stage)
    | Deciding | Diagnosing | Consulting | Rechecking
    | Over(end: End)

  /** The threads, the queue of records, whether GDB's error output is open, and the operation: `running` says that the
      engine takes its target to be running, `plan` how many calls the operation can make at most. */
  datatype Race = Race(sys: S.System, queue: seq<Result<MiRecord>>, stderrOpen: bool, running: bool, plan: nat,
                       token: nat, phase: Phase)

  /** What is left open in a step of the owner: an error of the engine, of a write or in an answer; whether the
      operation is finished; whether it waits for a stop without writing a command, or for the stop of its command;
      whether the deadline has passed. */
  datatype Choice = Choice(error: Option<OwnError>, finished: bool, listens: bool, wait: bool, expired: bool)

  datatype Move =
    | Owner(choice: Choice)
    | Begin(nowRunning: bool, nextPlan: nat)
    | Arrives(record: MiRecord)
    | OutputFails(error: ReaderError) | OutputTruncated(error: ReaderError)
    | StderrFails(error: ReaderError) | StderrEnds
    | Thread(step: S.Step)

  function Start(running: bool, plan: nat): Race {
    Race(S.Init(), [], true, running, plan, 0, Polling)
  }

  predicate HungUp(r: Race) {
    r.sys.threads.gdbReader.GdbDone? && !r.stderrOpen
  }

  /** What draining the queue reports. */
  function Drained(r: Race): Option<Failure> {
    T.DrainFailure(r.queue, HungUp(r))
  }

  /** The poll finds a stop of a running target whose record has no frame. */
  predicate NeedsQuery(r: Race) {
    && r.running && T.AllUsable(r.queue)
    && var details := SessionModel.StoppedDetails(T.Records(r.queue));
       details.Some? && details.value.1.None?
  }

  const TRANSPORT_FAILED := Failure(Debugger, DEBUG_TRANSPORT_FAILED)
  const SERVER_EXITED := Failure(Connection, OPENOCD_EXITED)

  /** `diagnosed_connection_failure`. */
  function Diagnosis(probe: S.ProbeTable, lines: seq<string>): Option<Failure> {
    if exists i :: 0 <= i < |lines| && probe(lines[i]) then Some(Failure(Connection, PROBE_DISCONNECTED))
    else if S.TargetLoss(S.Join(lines)) then Some(Failure(Connection, TARGET_UNREACHABLE))
    else None
  }

  /** `check_alive`. */
  function ServerError(probe: S.ProbeTable, sys: S.System): Option<Failure> {
    if sys.core.server.Alive? then None
    else if Diagnosis(probe, sys.evidence.lines).Some? then Diagnosis(probe, sys.evidence.lines)
    else Some(SERVER_EXITED)
  }

  /** What the supervisor publishes. */
  function Published(failure: Option<S.Culprit>): Option<Failure> {
    match failure
    case None => None
    case Some(Gdb) => Some(T.EXITED)
    case Some(OpenOcd) => Some(SERVER_EXITED)
  }

  /** What the owner sees if it looks at everything now. */
  function SeenAt(probe: S.ProbeTable, sys: S.System): OwnedModel.Seen {
    var alive := match ServerError(probe, sys) case None => Ok(()) case Some(e) => Err(e);
    OwnedModel.Seen(alive, sys.evidence.requested, Diagnosis(probe, sys.evidence.lines), Published(sys.core.failure),
                    alive)
  }

  /** Where an error of a command leads. */
  function OnError(query: bool, e: Failure): Phase {
    if query then Over(Broken(e))
    else if e.category == Interrupted then Deciding
    else if OwnedModel.Fatal(e) then Over(Broken(e))
    else Over(Done(Some(e)))
  }

  /** The engine between two calls of the operation. */
  function EngineStep(r: Race, left: nat, ch: Choice): Race {
    if ch.error.Some? then r.(phase := OnError(false, ch.error.value))
    else if left == 0 || ch.finished then r.(phase := Over(Done(None)))
    else if ch.listens then r.(phase := InCommand(Listening(), left - 1, Waiting))
    else Enter(r, NewExchange(false, r.token + 1, ch.wait), left - 1)
  }

  function Enter(r: Race, c: Exchange, left: nat): Race {
    r.(token := r.token + 1, phase := InCommand(c, left, Entering))
  }

  /** The first item of the queue is received. */
  function Received(r: Race, c: Exchange, left: nat, ch: Choice): Race
    requires r.queue != [] && T.Usable(r.queue[0])
  {
    var heard := Hear(c, r.queue[0].value);
    r.(queue := r.queue[1..],
       phase := if !Enough(heard) then InCommand(heard, left, Waiting)
                else if !c.query then Between(left)
                else if ch.error.Some? then OnError(true, ch.error.value)
                else CheckingServer)
  }

  function CommandStep(r: Race, c: Exchange, left: nat, stage: Stage, ch: Choice): Race {
    var flag := r.sys.core.flag;
    match stage
    case Entering => r.(phase := if flag then OnError(c.query, T.INTERRUPTION) else InCommand(c, left, Draining))
    case Draining =>
      if Drained(r).Some? then r.(phase := OnError(c.query, Drained(r).value))
      else if ch.error.Some? then r.(queue := [], phase := OnError(c.query, ch.error.value))
      else r.(queue := [], phase := InCommand(c, left, Waiting))
    case Waiting => r.(phase := InCommand(c, left, if flag then Aborting else Receiving))
    case Receiving =>
      if ch.expired then r.(phase := OnError(c.query, Failure(Debugger, Deadline(c))))
      else if r.queue == [] then
        r.(phase := if HungUp(r) then OnError(c.query, T.EXITED) else InCommand(c, left, Waiting))
      else if !T.Usable(r.queue[0]) then r.(phase := OnError(c.query, T.ItemError(r.queue[0])))
      else Received(r, c, left, ch)
    case Aborting =>
      if Drained(r).Some? then r.(phase := OnError(c.query, Drained(r).value))
      else r.(queue := [], phase := OnError(c.query, T.INTERRUPTION))
  }

  function Deadline(c: Exchange): Code {
    if c.token.Some? then GDB_COMMAND_TIMEOUT else GDB_STOP_TIMEOUT
  }

  /** One access of the owner. An error that ends the session leaves the queue as it is. */
  function OwnerStep(probe: S.ProbeTable, r: Race, ch: Choice): Race {
    var (c, e) := (r.sys.core, r.sys.evidence);
    match r.phase
    case Polling =>
      if Drained(r).Some? then r.(phase := Over(Broken(Drained(r).value)))
      else if NeedsQuery(r) then Enter(r.(queue := []), NewExchange(true, r.token + 1, false), 0)
      else r.(queue := [], phase := CheckingServer)
    case CheckingServer =>
      var error := ServerError(probe, r.sys);
      r.(phase := if error.Some? then Over(Broken(error.value)) else Between(r.plan))
    case Between(left) => EngineStep(r, left, ch)
    case InCommand(c, left, stage) => CommandStep(r, c, left, stage, ch)
    case Deciding => r.(phase := if e.requested then Over(Cancelled) else Diagnosing)
    case Diagnosing =>
      var found := Diagnosis(probe, e.lines);
      r.(phase := if found.Some? then Over(Failed(found.value)) else Consulting)
    case Consulting =>
      r.(phase := if c.failure.Some? then Over(Failed(Published(c.failure).value)) else Rechecking)
    case Rechecking =>
      var error := ServerError(probe, r.sys);
      r.(phase := Over(Failed(if error.Some? then error.value else TRANSPORT_FAILED)))
    case Over(_) => r
  }

  // ---- The others ----

  /** Steps that belong to the owner, or that put something into the queue as well. */
  predicate Elsewhere(step: S.Step) {
    step.OwnerStops? || step.OwnerCancels? || step.OwnerCleansUp? || step.OwnerContinues? || step.GdbOutputFails?
    || step.GdbOutputTruncated?
  }

  function Queue(r: Race, item: Result<MiRecord>): Race {
    r.(queue := r.queue + [item])
  }

  function Next(probe: S.ProbeTable, r: Race, move: Move): Race {
    var reading := r.sys.threads.gdbReader.GdbReading?;
    match move
    case Owner(choice) => OwnerStep(probe, r, choice)
    case Begin(nowRunning, nextPlan) =>
      if r.phase.Over? && r.phase.end.Done? then r.(running := nowRunning, plan := nextPlan, phase := Polling) else r
    case Arrives(record) => if reading || (r.stderrOpen && record.Log?) then Queue(r, Ok(record)) else r
    case OutputFails(e) =>
      if reading then Queue(r, Err(e)).(sys := S.Apply(probe, r.sys, S.GdbOutputFails)) else r
    case OutputTruncated(e) =>
      if reading then Queue(r, Err(e)).(sys := S.Apply(probe, r.sys, S.GdbOutputTruncated)) else r
    case StderrFails(e) => if r.stderrOpen then Queue(r, Err(e)).(stderrOpen := false) else r
    case StderrEnds => r.(stderrOpen := false)
    case Thread(step) => if Elsewhere(step) then r else r.(sys := S.Apply(probe, r.sys, step))
  }

  function NextAll(probe: S.ProbeTable, r: Race, moves: seq<Move>): Race
    decreases |moves|
  {
    if moves == [] then r else NextAll(probe, Next(probe, r, moves[0]), moves[1..])
  }

  // ---- The queue ----

  predicate HasUnusable(items: seq<Result<MiRecord>>) {
    exists i :: 0 <= i < |items| && !T.Usable(items[i])
  }

  /** A drain fails exactly on an unusable item or a closed queue, and more items do not help. */
  lemma {:induction false} DrainFailsIff(items: seq<Result<MiRecord>>, hungUp: bool)
    ensures T.DrainFailure(items, hungUp).Some? <==> HasUnusable(items) || hungUp
    ensures T.DrainFailure(items, hungUp).Some? ==>
      T.DrainFailure(items, hungUp) == Some(T.EXITED)
      || exists i :: 0 <= i < |items| && !T.Usable(items[i])
                     && T.DrainFailure(items, hungUp) == Some(T.ItemError(items[i]))
  {
    if items != [] {
      DrainFailsIff(items[1..], hungUp);
      if T.Usable(items[0]) {
        if i :| 0 <= i < |items| && !T.Usable(items[i]) {
          assert items[1..][i - 1] == items[i];
        }
        if i :| 0 <= i < |items[1..]| && !T.Usable(items[1..][i]) {
          assert items[i + 1] == items[1..][i];
        }
        if T.DrainFailure(items, hungUp).Some? && T.DrainFailure(items, hungUp) != Some(T.EXITED) {
          var i :| 0 <= i < |items[1..]| && !T.Usable(items[1..][i])
                   && T.DrainFailure(items, hungUp) == Some(T.ItemError(items[1..][i]));
          assert items[i + 1] == items[1..][i];
        }
      }
    }
  }

  // ---- What every run keeps ----

  predicate Honest(items: seq<Result<MiRecord>>) {
    forall i :: 0 <= i < |items| && items[i].Err? ==> FromReader(items[i].error)
  }

  /** A reader's error is in the queue until the owner takes it, which ends the session. */
  predicate QueueInv(r: Race) {
    && Honest(r.queue)
    && (r.sys.evidence.queuedError ==> HasUnusable(r.queue) || (r.phase.Over? && r.phase.end.Broken?))
  }

  /** The supervisor publishes once. */
  predicate PublishedOnce(c: S.Core) {
    c.failure.Some? ==> c.supervisor.Raising? || c.supervisor.ReapingGdb? || c.supervisor.ReapingServer?
                        || c.supervisor.Finished?
  }

  /** The flag can have been raised by something of which the owner finds no trace: a fatal line that came while the log
      was full, the token from outside, or a reader's error that is still in the queue. */
  predicate Traceless(r: Race) {
    r.sys.evidence.dropped || r.sys.evidence.external || HasUnusable(r.queue)
  }

  /** The error is what the stored log diagnoses, or what the supervisor has published. */
  predicate IsPublished(probe: S.ProbeTable, sys: S.System, e: Failure) {
    || (e == Failure(Connection, PROBE_DISCONNECTED)
        && exists i :: 0 <= i < |sys.evidence.lines| && probe(sys.evidence.lines[i]))
    || (e == Failure(Connection, TARGET_UNREACHABLE) && S.TargetLoss(S.Join(sys.evidence.lines)))
    || Published(sys.core.failure) == Some(e)
  }

  predicate PhaseInv(probe: S.ProbeTable, r: Race) {
    var (c, e) := (r.sys.core, r.sys.evidence);
    match r.phase
    case InCommand(command, _, stage) =>
      (stage.Aborting? ==> c.flag) && !Enough(command) && (!command.wait ==> command.stopped)
      && (command.query ==> command.token.Some? && !command.wait)
    case Deciding => c.flag
    case Diagnosing => c.flag && (S.StoredFatalLine(probe, e) || c.failure.Some? || Traceless(r))
    case Consulting => c.flag && (c.failure.Some? || Traceless(r))
    case Rechecking => c.flag && Traceless(r)
    case Over(Done(error)) => error.Some? ==> error.value.category != Interrupted
    case Over(Cancelled) => e.requested && c.flag
    case Over(Failed(cause)) =>
      && c.flag && cause.category != Interrupted
      && (IsPublished(probe, r.sys, cause) || (Traceless(r) && cause in {TRANSPORT_FAILED, SERVER_EXITED}))
    case _ => true
  }

  predicate Inv(probe: S.ProbeTable, r: Race) {
    && S.Inv(probe, r.sys) && r.sys.threads.owner.Working? && !r.sys.evidence.ownerStopped && PublishedOnce(r.sys.core)
    && QueueInv(r) && PhaseInv(probe, r)
  }

  /** What no step takes back. */
  predicate Grown(probe: S.ProbeTable, a: S.System, b: S.System) {
    && (a.core.flag ==> b.core.flag) && (a.core.failure.Some? ==> b.core.failure == a.core.failure)
    && (a.evidence.requested ==> b.evidence.requested) && (a.evidence.external ==> b.evidence.external)
    && (a.evidence.dropped ==> b.evidence.dropped) && a.evidence.lines <= b.evidence.lines
    && (a.threads.gdbReader.GdbDone? ==> b.threads.gdbReader.GdbDone?)
    && (!a.core.server.Alive? ==> !b.core.server.Alive?)
  }

  lemma {:induction false} ThreadKeeps(probe: S.ProbeTable, s: S.System, step: S.Step)
    requires S.Inv(probe, s) && s.threads.owner.Working? && !s.evidence.ownerStopped && PublishedOnce(s.core)
    requires !Elsewhere(step) || step.GdbOutputFails? || step.GdbOutputTruncated?
    ensures var t := S.Apply(probe, s, step);
            && S.Inv(probe, t) && t.threads.owner.Working? && !t.evidence.ownerStopped && PublishedOnce(t.core)
            && Grown(probe, s, t)
            && (t.evidence.queuedError ==>
                  s.evidence.queuedError
                  || ((step.GdbOutputFails? || step.GdbOutputTruncated?) && s.threads.gdbReader.GdbReading?))
  {
    S.StepKeeps(probe, s, step);
    hide S.FatalLine;
    hide S.StoredFatalLine;
  }

  lemma {:induction false} JoinGrows(a: seq<string>, b: seq<string>)
    requires a <= b && S.TargetLoss(S.Join(a))
    ensures S.TargetLoss(S.Join(b))
  {
    if |a| < |b| {
      var n := |b| - 1;
      JoinGrows(a, b[..n]);
      S.LossWithin("", S.Join(b[..n]), b[n] + "\n");
      assert "" + S.Join(b[..n]) == S.Join(b[..n]);
    } else {
      assert a == b;
    }
  }

  lemma {:induction false} PublishedStays(probe: S.ProbeTable, a: S.System, b: S.System, e: Failure)
    requires Grown(probe, a, b) && IsPublished(probe, a, e)
    ensures IsPublished(probe, b, e)
  {
    if i :| 0 <= i < |a.evidence.lines| && probe(a.evidence.lines[i]) {
      assert b.evidence.lines[i] == a.evidence.lines[i];
    }
    if S.TargetLoss(S.Join(a.evidence.lines)) {
      JoinGrows(a.evidence.lines, b.evidence.lines);
    }
  }

  lemma {:induction false} UnusableStays(items: seq<Result<MiRecord>>, item: Result<MiRecord>)
    ensures HasUnusable(items + [item]) <==> HasUnusable(items) || !T.Usable(item)
  {
    var longer := items + [item];
    assert longer[|items|] == item;
    if i :| 0 <= i < |items| && !T.Usable(items[i]) {
      assert longer[i] == items[i];
    }
  }

  /** A step of another thread: the operation stays where it is, and what it rests on stays true. */
  lemma {:induction false} OthersKeep(probe: S.ProbeTable, a: Race, b: Race)
    requires Inv(probe, a) && b.phase == a.phase && Grown(probe, a.sys, b.sys) && QueueInv(b)
    requires HasUnusable(a.queue) ==> HasUnusable(b.queue)
    requires S.Inv(probe, b.sys) && b.sys.threads.owner.Working? && !b.sys.evidence.ownerStopped
    requires PublishedOnce(b.sys.core)
    ensures Inv(probe, b)
  {
    hide S.Inv;
    hide QueueInv;
    hide HasUnusable;
    match a.phase {
      case Diagnosing =>
        if i :| 0 <= i < |a.sys.evidence.lines| && S.FatalLine(probe, a.sys.evidence.lines[i]) {
          assert b.sys.evidence.lines[i] == a.sys.evidence.lines[i];
        }
      case Over(Failed(cause)) =>
        if IsPublished(probe, a.sys, cause) {
          PublishedStays(probe, a.sys, b.sys, cause);
        }
      case _ =>
    }
  }

  // ---- The owner's steps ----

  /** After a drain that found nothing wrong no error is left. */
  lemma {:induction false} CleanDrain(r: Race)
    requires QueueInv(r) && Drained(r).None? && !(r.phase.Over? && r.phase.end.Broken?)
    ensures !HasUnusable(r.queue) && !HungUp(r) && !r.sys.evidence.queuedError
  {
    DrainFailsIff(r.queue, HungUp(r));
  }

  lemma {:induction false} DrainErrorFatal(r: Race)
    requires Honest(r.queue) && Drained(r).Some?
    ensures FromReader(Drained(r).value)
  {
    DrainFailsIff(r.queue, HungUp(r));
  }

  lemma {:induction false} PopKeeps(r: Race, phase: Phase)
    requires QueueInv(r) && r.queue != [] && T.Usable(r.queue[0]) && !(r.phase.Over? && r.phase.end.Broken?)
    ensures QueueInv(r.(queue := r.queue[1..], phase := phase))
  {
    var rest := r.queue[1..];
    if i :| 0 <= i < |r.queue| && !T.Usable(r.queue[i]) {
      assert rest[i - 1] == r.queue[i];
    }
  }

  lemma {:induction false} DrainingKeeps(probe: S.ProbeTable, r: Race, ch: Choice)
    requires Inv(probe, r) && r.phase.InCommand? && (r.phase.stage.Draining? || r.phase.stage.Aborting?)
    ensures Inv(probe, CommandStep(r, r.phase.command, r.phase.left, r.phase.stage, ch))
  {
    if Drained(r).Some? {
      DrainErrorFatal(r);
    } else {
      CleanDrain(r);
    }
    hide S.Inv;
    hide Drained;
    hide HasUnusable;
    hide PublishedOnce;
  }

  lemma {:induction false} ReceivingKeeps(probe: S.ProbeTable, r: Race, ch: Choice)
    requires Inv(probe, r) && r.phase.InCommand? && r.phase.stage.Receiving?
    ensures Inv(probe, CommandStep(r, r.phase.command, r.phase.left, r.phase.stage, ch))
  {
    if r.queue != [] && T.Usable(r.queue[0]) {
      PopKeeps(r, CommandStep(r, r.phase.command, r.phase.left, Receiving, ch).phase);
    }
    hide S.Inv;
    hide Drained;
    hide HasUnusable;
    hide PublishedOnce;
  }

  lemma {:induction false} CommandKeeps(probe: S.ProbeTable, r: Race, ch: Choice)
    requires Inv(probe, r) && r.phase.InCommand?
    ensures Inv(probe, CommandStep(r, r.phase.command, r.phase.left, r.phase.stage, ch))
  {
    hide S.Inv;
    hide PublishedOnce;
    if r.phase.stage.Draining? || r.phase.stage.Aborting? {
      DrainingKeeps(probe, r, ch);
    } else if r.phase.stage.Receiving? {
      ReceivingKeeps(probe, r, ch);
    } else {
      hide HasUnusable;
    }
  }

  lemma {:induction false} DiagnosisIff(probe: S.ProbeTable, lines: seq<string>)
    ensures Diagnosis(probe, lines).Some? <==> S.Diagnosed(probe, lines)
  {}

  lemma {:induction false} DiagnosisPublished(probe: S.ProbeTable, sys: S.System)
    requires Diagnosis(probe, sys.evidence.lines).Some?
    ensures IsPublished(probe, sys, Diagnosis(probe, sys.evidence.lines).value)
  {}

  /** The loads with which the owner decides what to report. */
  lemma {:induction false} DecisionKeeps(probe: S.ProbeTable, r: Race, ch: Choice)
    requires Inv(probe, r) && (r.phase.Deciding? || r.phase.Diagnosing? || r.phase.Consulting? || r.phase.Rechecking?)
    ensures Inv(probe, OwnerStep(probe, r, ch))
  {
    var e := r.sys.evidence;
    DiagnosisIff(probe, e.lines);
    if Diagnosis(probe, e.lines).Some? {
      DiagnosisPublished(probe, r.sys);
    } else if i :| 0 <= i < |e.lines| && S.FatalLine(probe, e.lines[i]) {
      S.StoredLineIsDiagnosed(probe, e.lines, i);
    }
    hide S.FatalLine;
    hide HasUnusable;
    hide Diagnosis;
    hide CommandStep;
    hide EngineStep;
    hide Drained;
  }

  lemma {:induction false} EngineKeeps(probe: S.ProbeTable, r: Race, ch: Choice)
    requires Inv(probe, r) && r.phase.Between?
    ensures Inv(probe, EngineStep(r, r.phase.left, ch))
  {
    hide S.Inv;
    hide HasUnusable;
  }

  lemma {:induction false} OwnerKeeps(probe: S.ProbeTable, r: Race, ch: Choice)
    requires Inv(probe, r)
    ensures Inv(probe, OwnerStep(probe, r, ch))
  {
    hide CommandStep;
    hide EngineStep;
    hide S.Inv;
    match r.phase {
      case Polling =>
        if Drained(r).None? {
          CleanDrain(r);
        }
      case Between(_) => EngineKeeps(probe, r, ch);
      case InCommand(_, _, _) => CommandKeeps(probe, r, ch);
      case Deciding => DecisionKeeps(probe, r, ch);
      case Diagnosing => DecisionKeeps(probe, r, ch);
      case Consulting => DecisionKeeps(probe, r, ch);
      case Rechecking => DecisionKeeps(probe, r, ch);
      case _ =>
    }
  }

  lemma {:induction false} OtherKeeps(probe: S.ProbeTable, r: Race, move: Move)
    requires Inv(probe, r) && !move.Owner? && !move.Begin?
    ensures Inv(probe, Next(probe, r, move)) && Grown(probe, r.sys, Next(probe, r, move).sys)
    ensures Next(probe, r, move).phase == r.phase && Next(probe, r, move).running == r.running
    ensures HungUp(r) ==> Next(probe, r, move).queue == r.queue && HungUp(Next(probe, r, move))
    ensures r.queue <= Next(probe, r, move).queue
  {
    var n := Next(probe, r, move);
    if move.Thread? && !Elsewhere(move.step) {
      ThreadKeeps(probe, r.sys, move.step);
    } else if move.OutputFails? {
      ThreadKeeps(probe, r.sys, S.GdbOutputFails);
      UnusableStays(r.queue, Err(move.error));
    } else if move.OutputTruncated? {
      ThreadKeeps(probe, r.sys, S.GdbOutputTruncated);
      UnusableStays(r.queue, Err(move.error));
    } else if move.StderrFails? {
      UnusableStays(r.queue, Err(move.error));
    } else if move.Arrives? {
      UnusableStays(r.queue, Ok(move.record));
    }
    hide S.Inv;
    hide HasUnusable;
    hide PublishedOnce;
    hide PhaseInv;
    hide OwnedModel.Fatal;
    OthersKeep(probe, r, n);
  }

  /** Once GDB's output is no longer read, nothing but log records and errors arrives. */
  lemma {:induction false} OtherLeaves(probe: S.ProbeTable, r: Race, move: Move)
    requires !move.Owner? && !move.Begin?
    ensures var n := Next(probe, r, move);
            && n.plan == r.plan && n.token == r.token
            && (!r.sys.threads.gdbReader.GdbReading? ==>
                  && !n.sys.threads.gdbReader.GdbReading?
                  && (r.queue == [] && n.queue != [] ==> n.queue[0].Err? || n.queue[0].value.Log?))
  {
    hide S.FatalLine;
  }

  /** Every step of every thread keeps the invariant. */
  lemma {:induction false} StepKeeps(probe: S.ProbeTable, r: Race, move: Move)
    requires Inv(probe, r)
    ensures Inv(probe, Next(probe, r, move))
  {
    match move {
      case Owner(ch) => OwnerKeeps(probe, r, ch);
      case Begin(_, _) =>
      case _ => OtherKeeps(probe, r, move);
    }
  }

  lemma {:induction false} RunKeeps(probe: S.ProbeTable, r: Race, moves: seq<Move>)
    requires Inv(probe, r)
    ensures Inv(probe, NextAll(probe, r, moves))
    decreases |moves|
  {
    if moves != [] {
      StepKeeps(probe, r, moves[0]);
      RunKeeps(probe, Next(probe, r, moves[0]), moves[1..]);
    }
  }

  // ---- Causes ----

  lemma {:induction false} StartKeeps(probe: S.ProbeTable, running: bool, plan: nat)
    ensures Inv(probe, Start(running, plan))
  {
    S.Reachable(probe, []);
  }

  /** In every run of a session: an operation that ends cancelled was asked to. One that ends with a cause names what
      the stored log diagnoses or what the supervisor published, unless a fatal line was dropped, the token came from
      outside, or a reader's error still waits in the queue; only then can it be DEBUG_TRANSPORT_FAILED. */
  lemma {:induction false} CauseIsPublished(probe: S.ProbeTable, running: bool, plan: nat, moves: seq<Move>)
    ensures var r := NextAll(probe, Start(running, plan), moves);
            && (r.phase == Over(Cancelled) ==> r.sys.evidence.requested && r.sys.core.flag)
            && (r.phase.Over? && r.phase.end.Failed? ==>
                  IsPublished(probe, r.sys, r.phase.end.cause)
                  || (Traceless(r) && r.phase.end.cause in {TRANSPORT_FAILED, SERVER_EXITED}))
            && (r.phase == Over(Failed(TRANSPORT_FAILED)) ==> Traceless(r))
  {
    StartKeeps(probe, running, plan);
    RunKeeps(probe, Start(running, plan), moves);
  }

  /** The loads of a decision, with nothing in between, give what the owner's cleanup reports. */
  lemma {:induction false} DecisionIsCause(probe: S.ProbeTable, r: Race, ch: Choice)
    requires r.phase.Deciding?
    ensures NextAll(probe, r, [Owner(ch), Owner(ch), Owner(ch), Owner(ch)]).phase ==
            Over(if r.sys.evidence.requested then Cancelled else Failed(OwnedModel.Cause(SeenAt(probe, r.sys))))
    ensures NextAll(probe, r, [Owner(ch), Owner(ch), Owner(ch), Owner(ch)]).queue == r.queue
  {
    hide Diagnosis;
    hide CommandStep;
    hide Drained;
    hide NeedsQuery;
    FourMoves(probe, r, Owner(ch), Owner(ch), Owner(ch), Owner(ch));
  }

  /** The error with which an operation comes back. */
  function Returned(end: End): Option<Failure> {
    match end
    case Done(error) => error
    case Broken(cause) => Some(cause)
    case Cancelled => Some(T.INTERRUPTION)
    case Failed(cause) => Some(cause)
  }

  /** And the owner's code cleans up and returns accordingly. */
  lemma {:induction false} DecisionIsFinish(
    probe: S.ProbeTable, r: Race, ch: Choice, w: SessionModel.World, s: SessionModel.Session, op: SessionModel.Op)
    requires r.phase.Deciding? && SessionModel.Do(w, s, op).1 == Err(T.INTERRUPTION)
    ensures var end := NextAll(probe, r, [Owner(ch), Owner(ch), Owner(ch), Owner(ch)]).phase;
            var (left, outcome) := OwnedModel.Finish(w, s, op, SeenAt(probe, r.sys));
            var engine := SessionModel.Do(w, s, op).0;
            && end.Over? && outcome.Err? && Returned(end.end) == Some(outcome.error)
            && left == (if end.end == Cancelled then SessionModel.DoCancel(w, engine, "in_flight")
                        else SessionModel.DoFail(w, engine, outcome.error))
  {
    DecisionIsCause(probe, r, ch);
    hide SessionModel.Do;
    hide SessionModel.DoCancel;
    hide SessionModel.DoFail;
    hide SeenAt;
    hide NextAll;
    hide OwnedModel.Cause;
  }

  lemma {:induction false} FourMoves(probe: S.ProbeTable, r: Race, a: Move, b: Move, c: Move, d: Move)
    ensures NextAll(probe, r, [a, b, c, d]) == Next(probe, Next(probe, Next(probe, Next(probe, r, a), b), c), d)
  {
    hide Next;
    var r1 := Next(probe, r, a);
    assert [a, b, c, d][1..] == [b, c, d] && [b, c, d][1..] == [c, d] && [c, d][1..] == [d] && [d][1..] == [];
    assert NextAll(probe, r1, [b, c, d]) == NextAll(probe, Next(probe, r1, b), [c, d]);
    assert NextAll(probe, Next(probe, r1, b), [c, d]) == NextAll(probe, Next(probe, Next(probe, r1, b), c), [d]);
  }

  /** A decision that nobody asked for and nothing disturbs names a published cause if and only if there is one; if
      there is none, the flag came from a dropped line, from outside, or with an error that is still queued. */
  lemma {:induction false} CausePublishedIff(probe: S.ProbeTable, r: Race, ch: Choice)
    requires Inv(probe, r) && r.phase.Deciding? && !r.sys.evidence.requested
    ensures var end := NextAll(probe, r, [Owner(ch), Owner(ch), Owner(ch), Owner(ch)]).phase;
            var published := S.Diagnosed(probe, r.sys.evidence.lines) || r.sys.core.failure.Some?;
            && end.Over? && end.end.Failed? && (IsPublished(probe, r.sys, end.end.cause) <==> published)
            && (!published ==> Traceless(r))
  {
    DecisionIsCause(probe, r, ch);
    DiagnosisIff(probe, r.sys.evidence.lines);
    if Diagnosis(probe, r.sys.evidence.lines).Some? {
      DiagnosisPublished(probe, r.sys);
    } else if i :| 0 <= i < |r.sys.evidence.lines| && S.FatalLine(probe, r.sys.evidence.lines[i]) {
      S.StoredLineIsDiagnosed(probe, r.sys.evidence.lines, i);
    }
    hide NextAll;
    hide S.FatalLine;
    hide HasUnusable;
  }

  // ---- Cancellation ----

  /** Moves of one operation. */
  predicate OneOperation(moves: seq<Move>) {
    forall i :: 0 <= i < |moves| ==> !moves[i].Begin?
  }

  predicate EndsCancelled(probe: S.ProbeTable, r: Race, moves: seq<Move>) {
    OneOperation(moves) && NextAll(probe, r, moves).phase == Over(Cancelled)
  }

  /** The next item is received, and the loop then has enough. */
  predicate Completes(r: Race, c: Exchange) {
    r.queue != [] && T.Usable(r.queue[0]) && Enough(Hear(c, r.queue[0].value))
  }

  /** The server check that is still to come fails, or the operation makes no call. */
  predicate NoCallAhead(r: Race) {
    !r.sys.core.server.Alive? || r.plan == 0
  }

  /** What already stands between a requested cancellation and its report. */
  predicate Blocked(r: Race) {
    match r.phase
    case Polling => Drained(r).Some? || NeedsQuery(r) || NoCallAhead(r)
    case CheckingServer => NoCallAhead(r)
    case Between(left) => left == 0
    case InCommand(c, left, Receiving) =>
      if c.query then
        NoCallAhead(r) || (if r.queue == [] then !r.sys.threads.gdbReader.GdbReading? else !Completes(r, c))
      else if Completes(r, c) then left == 0
      else Drained(r).Some?
    case InCommand(c, _, stage) => c.query || (!stage.Entering? && Drained(r).Some?)
    case Deciding => false
    case Over(end) => end != Cancelled
    case _ => true
  }

  lemma {:induction false} QueryStays(a: Race, b: Race)
    requires NeedsQuery(a) && b.running == a.running && a.queue <= b.queue
    ensures NeedsQuery(b) || HasUnusable(b.queue)
  {
    if T.AllUsable(b.queue) {
      var more := b.queue[|a.queue|..];
      T.RecordsAppend(b.queue, 0, |a.queue|, |b.queue|);
      assert b.queue[0..|b.queue|] == b.queue && b.queue[..|a.queue|] == a.queue;
      SessionModel.StaleStopDecides(T.Records(a.queue), T.Records(more));
    }
  }

  lemma {:induction false} DrainStaysBad(a: Race, b: Race)
    requires Drained(a).Some? && a.queue <= b.queue && (HungUp(a) ==> HungUp(b))
    ensures Drained(b).Some?
  {
    DrainFailsIff(a.queue, HungUp(a));
    DrainFailsIff(b.queue, HungUp(b));
    if i :| 0 <= i < |a.queue| && !T.Usable(a.queue[i]) {
      assert b.queue[i] == a.queue[i];
    }
  }

  lemma {:induction false} PopDrained(r: Race)
    requires r.queue != [] && T.Usable(r.queue[0])
    ensures Drained(r) == T.DrainFailure(r.queue[1..], HungUp(r))
  {}

  /** What stands in the way stays there, whatever the threads do. */
  lemma {:induction false} BlockedStays(probe: S.ProbeTable, r: Race, move: Move)
    requires Inv(probe, r) && r.sys.core.flag && Blocked(r) && !move.Begin?
    ensures var n := Next(probe, r, move); Inv(probe, n) && n.sys.core.flag && Blocked(n)
  {
    StepKeeps(probe, r, move);
    if move.Owner? {
      if Drained(r).Some? {
        DrainErrorFatal(r);
      }
      assert r.queue != [] && r.queue[0].Err? ==> FromReader(r.queue[0].error);
      hide Inv;
      hide OwnerStep;
      hide Blocked;
      hide Drained;
      OwnerStaysBlocked(probe, r, move.choice);
    } else {
      OthersStayBlocked(probe, r, move);
    }
  }

  lemma {:induction false} OthersStayBlocked(probe: S.ProbeTable, r: Race, move: Move)
    requires Inv(probe, r) && r.sys.core.flag && Blocked(r) && !move.Begin? && !move.Owner?
    ensures var n := Next(probe, r, move); n.sys.core.flag && Blocked(n)
  {
    var n := Next(probe, r, move);
    OtherKeeps(probe, r, move);
    OtherLeaves(probe, r, move);
    if Drained(r).Some? {
      DrainStaysBad(r, n);
    }
    if NeedsQuery(r) {
      QueryStays(r, n);
      DrainFailsIff(n.queue, HungUp(n));
    }
    if r.queue != [] {
      assert n.queue[0] == r.queue[0];
    }
    assert r.queue == [] && HungUp(r) ==> n.queue == [];
    hide Next;
    hide S.Inv;
    hide QueueInv;
    hide NeedsQuery;
    hide Drained;
  }

  lemma {:induction false} ReceivingStaysBlocked(probe: S.ProbeTable, r: Race, ch: Choice)
    requires r.sys.core.flag && Blocked(r) && PhaseInv(probe, r) && r.phase.InCommand? && r.phase.stage.Receiving?
    requires r.queue != [] && !T.Usable(r.queue[0]) ==> FromReader(T.ItemError(r.queue[0]))
    ensures var n := OwnerStep(probe, r, ch); n.sys.core.flag && Blocked(n)
  {
    if r.queue != [] && T.Usable(r.queue[0]) {
      PopDrained(r);
    }
    hide NeedsQuery;
    hide T.Answers;
    hide T.IsStop;
  }

  lemma {:induction false} StageStaysBlocked(r: Race, ch: Choice)
    requires r.sys.core.flag && Blocked(r) && r.phase.InCommand? && !r.phase.stage.Receiving?
    requires Drained(r).Some? ==> FromReader(Drained(r).value)
    ensures var n := CommandStep(r, r.phase.command, r.phase.left, r.phase.stage, ch); n.sys.core.flag && Blocked(n)
  {
    hide Completes;
    hide Received;
    hide NeedsQuery;
  }

  lemma {:induction false} OwnerStaysBlocked(probe: S.ProbeTable, r: Race, ch: Choice)
    requires r.sys.core.flag && Blocked(r) && PhaseInv(probe, r)
    requires Drained(r).Some? ==> FromReader(Drained(r).value)
    requires r.queue != [] && !T.Usable(r.queue[0]) ==> FromReader(T.ItemError(r.queue[0]))
    ensures var n := OwnerStep(probe, r, ch); n.sys.core.flag && Blocked(n)
  {
    if r.phase.InCommand? && r.phase.stage.Receiving? {
      ReceivingStaysBlocked(probe, r, ch);
    } else {
      if r.phase.InCommand? {
        StageStaysBlocked(r, ch);
      }
      hide CommandStep;
      hide Completes;
      hide NeedsQuery;
      hide Diagnosis;
      hide IsPublished;
      hide HasUnusable;
    }
  }

  lemma {:induction false} BlockedNeverCancelled(probe: S.ProbeTable, r: Race, moves: seq<Move>)
    requires Inv(probe, r) && r.sys.core.flag && Blocked(r)
    ensures !EndsCancelled(probe, r, moves)
    decreases |moves|
  {
    if moves != [] && OneOperation(moves) {
      BlockedStays(probe, r, moves[0]);
      assert OneOperation(moves[1..]);
      BlockedNeverCancelled(probe, Next(probe, r, moves[0]), moves[1..]);
    }
  }

  const GO := Choice(None, false, false, false, false)

  function Distance(r: Race): nat {
    match r.phase
    case Polling => 5
    case CheckingServer => 4
    case Between(_) => 3
    case InCommand(_, _, Draining) => 4
    case InCommand(_, _, Waiting) => 3
    case InCommand(c, _, Receiving) => if !c.query then 4 else if r.queue != [] then 5 else 6
    case InCommand(_, _, _) => 2
    case Deciding => 1
    case _ => 0
  }

  /** The owner is left alone, except that the answer to a query arrives if it has not yet. */
  function FreeMove(r: Race): Move {
    if r.phase.InCommand? && r.phase.command.query && r.phase.stage.Receiving? && r.queue == [] then
      Arrives(ResultRecord(r.phase.command.token, "done", []))
    else Owner(GO)
  }

  lemma {:induction false} FreeStage(probe: S.ProbeTable, r: Race)
    requires r.sys.core.flag && PhaseInv(probe, r) && !Blocked(r) && r.phase.InCommand?
    ensures var n := Next(probe, r, FreeMove(r));
            n.sys == r.sys && PhaseInv(probe, n) && !Blocked(n) && Distance(n) < Distance(r)
  {
    DrainFailsIff(r.queue, HungUp(r));
    hide NeedsQuery;
    hide HasUnusable;
    hide IsPublished;
    if r.phase.stage.Receiving? {
      hide OnError;
      if r.queue != [] && T.Usable(r.queue[0]) {
        PopDrained(r);
      }
      if FreeMove(r).Arrives? {
        AnswerCompletes(r);
      }
    } else {
      hide Completes;
    }
  }

  /** With nothing in the way the owner gets there if it is left alone. */
  lemma {:induction false} FreeStep(probe: S.ProbeTable, r: Race)
    requires r.sys.core.flag && r.sys.evidence.requested && PhaseInv(probe, r) && !Blocked(r) && !r.phase.Over?
    ensures var n := Next(probe, r, FreeMove(r));
            n.sys == r.sys && PhaseInv(probe, n) && !Blocked(n) && Distance(n) < Distance(r)
  {
    if r.phase.InCommand? {
      FreeStage(probe, r);
    } else {
      DrainFailsIff(r.queue, HungUp(r));
      hide CommandStep;
      hide NeedsQuery;
      hide Diagnosis;
      hide HasUnusable;
      hide IsPublished;
    }
  }

  lemma {:induction false} AnswerCompletes(r: Race)
    requires r.phase.InCommand? && r.queue == [] && r.phase.command.token.Some? && r.phase.command.stopped
    ensures Completes(Queue(r, Ok(ResultRecord(r.phase.command.token, "done", []))), r.phase.command)
  {}

  lemma {:induction false} FreeIsCancelled(probe: S.ProbeTable, r: Race) returns (moves: seq<Move>)
    requires r.sys.core.flag && r.sys.evidence.requested && PhaseInv(probe, r) && !Blocked(r)
    ensures EndsCancelled(probe, r, moves)
    decreases Distance(r)
  {
    if r.phase.Over? {
      moves := [];
    } else {
      FreeStep(probe, r);
      var rest := FreeIsCancelled(probe, Next(probe, r, FreeMove(r)));
      moves := [FreeMove(r)] + rest;
      assert moves[1..] == rest && moves[0] == FreeMove(r);
      hide Next;
    }
  }

  /** Exactly when a requested cancellation can still be reported as one, at any point of an operation and whatever the
      threads do from there. Before the poll: if the queue drains without an error, holds no stop whose frame would have
      to be asked for, the server is alive and the operation makes a call. Between two calls: if there is another. At
      the entry of a command of the operation: always. Inside it: if what waits in the queue drains without an error,
      or the record that is received next completes it and there is another call to make. */
  lemma {:induction false} CancelledIff(probe: S.ProbeTable, r: Race)
    requires Inv(probe, r) && r.sys.core.flag && r.sys.evidence.requested
    ensures (exists moves :: EndsCancelled(probe, r, moves)) <==> !Blocked(r)
  {
    if Blocked(r) {
      forall moves ensures !EndsCancelled(probe, r, moves) {
        BlockedNeverCancelled(probe, r, moves);
      }
    } else {
      var moves := FreeIsCancelled(probe, r);
    }
  }

  /** How many calls an operation of the engine makes at most. */
  function Plan(op: SessionModel.Op): nat {
    match op
    case Continue => 2
    case Halt => 2
    case WaitStopped => 2
    case Step(_) => 3
    case ResetHalt => 2
    case Inspect(_, queries) => |queries|
    case Load(_) => 4
    case _ => 0
  }

  predicate Executable(op: SessionModel.Op) {
    op.Continue? || op.Halt? || op.WaitStopped? || op.Step? || op.ResetHalt? || op.Inspect? || op.Load?
  }

  lemma {:induction false} OpWithinPlan(w: SessionModel.World, s: SessionModel.Session, op: SessionModel.Op)
    requires Executable(op)
    ensures SessionModel.Do(w, s, op).0.calls <= s.calls + Plan(op)
  {
    hide SessionModel.StoppedDetails;
    hide SessionModel.FrameOf;
    hide SessionModel.FindTuple;
    hide SessionModel.CapturedAll;
    hide SessionModel.CommandError;
    if op.Inspect? && s.state == SessionModel.Halted && op.badArgument.None? {
      QueriesWithinPlan(w, s, op.queries);
    }
  }

  lemma {:induction false} QueriesWithinPlan(
    w: SessionModel.World, s: SessionModel.Session, queries: seq<SessionModel.Query>)
    ensures SessionModel.DoQueries(w, s, queries).0.calls <= s.calls + |queries|
    decreases |queries|
  {
    if queries != [] {
      var command := SessionModel.Inspection(queries[0].command);
      QueriesWithinPlan(w, SessionModel.Run(w, s, command, false, SessionModel.WantDone).0, queries[1..]);
    }
  }

  predicate NotBlaming(phase: Phase) {
    !phase.Diagnosing? && !phase.Consulting? && !phase.Rechecking? && (phase.Over? ==> !phase.end.Failed?)
  }

  lemma {:induction false} ErrorNotBlaming(query: bool, e: Failure)
    ensures NotBlaming(OnError(query, e))
  {
    hide OwnedModel.Fatal;
  }

  lemma {:induction false} CommandNotBlaming(r: Race, c: Exchange, left: nat, stage: Stage, ch: Choice)
    ensures NotBlaming(CommandStep(r, c, left, stage, ch).phase) && CommandStep(r, c, left, stage, ch).sys == r.sys
    ensures NotBlaming(EngineStep(r, left, ch).phase) && EngineStep(r, left, ch).sys == r.sys
  {
    forall query, e: Failure ensures NotBlaming(OnError(query, e)) {
      ErrorNotBlaming(query, e);
    }
    hide OnError;
    hide Drained;
  }

  lemma {:induction false} OwnerNotBlaming(probe: S.ProbeTable, r: Race, ch: Choice)
    requires r.sys.evidence.requested && NotBlaming(r.phase)
    ensures NotBlaming(OwnerStep(probe, r, ch).phase) && OwnerStep(probe, r, ch).sys == r.sys
  {
    if r.phase.InCommand? {
      CommandNotBlaming(r, r.phase.command, r.phase.left, r.phase.stage, ch);
    } else if r.phase.Between? {
      CommandNotBlaming(r, Listening(), r.phase.left, Waiting, ch);
    }
    hide CommandStep;
    hide EngineStep;
    hide Drained;
    hide NeedsQuery;
    hide Diagnosis;
  }

  /** A user who asks before the poll of a quiet session can be told so. */
  lemma {:induction false} RequestIsReported(probe: S.ProbeTable)
    ensures var r := NextAll(probe, Start(false, 1), [Thread(S.UserAnnounces), Thread(S.UserCancels)]);
            && r.sys.core.flag && r.sys.evidence.requested && r.phase.Polling?
            && exists moves :: EndsCancelled(probe, r, moves)
  {
    var r := NextAll(probe, Start(false, 1), [Thread(S.UserAnnounces), Thread(S.UserCancels)]);
    var asked := S.Apply(probe, S.Apply(probe, S.Init(), S.UserAnnounces), S.UserCancels);
    assert [Thread(S.UserAnnounces), Thread(S.UserCancels)][1..] == [Thread(S.UserCancels)];
    assert r == Start(false, 1).(sys := asked);
    var moves := FreeIsCancelled(probe, r);
  }

  /** Whoever asked before the decision is not told of a cause instead. */
  lemma {:induction false} RequestIsNotBlamed(probe: S.ProbeTable, r: Race, moves: seq<Move>)
    requires Inv(probe, r) && r.sys.evidence.requested && NotBlaming(r.phase)
    ensures NotBlaming(NextAll(probe, r, moves).phase)
    decreases |moves|
  {
    if moves != [] {
      StepKeeps(probe, r, moves[0]);
      if moves[0].Owner? {
        OwnerNotBlaming(probe, r, moves[0].choice);
      } else if !moves[0].Begin? {
        OtherKeeps(probe, r, moves[0]);
      }
      hide Inv;
      hide Grown;
      RequestIsNotBlamed(probe, Next(probe, r, moves[0]), moves[1..]);
    }
  }

  /** And from before the poll it is always a race: if GDB, killed because of the flag, closes its output first, the
      poll sees that and the session ends broken. */
  lemma {:induction false} KilledGdbIsSeenFirst(probe: S.ProbeTable, r: Race)
    requires Inv(probe, r) && r.phase.Polling? && r.sys.core.flag && r.sys.evidence.requested
    ensures var n := NextAll(probe, r, [Thread(S.GdbSignals), Thread(S.GdbOutputEnds), StderrEnds, Owner(GO)]);
            n.phase.Over? && n.phase.end.Broken? && (!HasUnusable(r.queue) ==> n.phase == Over(Broken(T.EXITED)))
  {
    FourMoves(probe, r, Thread(S.GdbSignals), Thread(S.GdbOutputEnds), StderrEnds, Owner(GO));
    DrainFailsIff(r.queue, true);
  }

  // ---- Runs that end in these ways ----

  lemma {:induction false} Onwards(probe: S.ProbeTable, r: Race, a: seq<Move>, b: seq<Move>)
    ensures NextAll(probe, r, a + b) == NextAll(probe, NextAll(probe, r, a), b)
    decreases |a|
  {
    if a == [] {
      assert a + b == b;
    } else {
      assert (a + b)[0] == a[0] && (a + b)[1..] == a[1..] + b;
      Onwards(probe, Next(probe, r, a[0]), a[1..], b);
    }
  }

  function OwnerAlone(): seq<Move> {
    [Owner(GO)] + [Owner(GO), Owner(GO), Owner(GO), Owner(GO)]
  }

  /** The flag is up when a command is about to be entered, and nobody interferes any more. */
  lemma {:induction false} EnterAndDecide(probe: S.ProbeTable, r: Race)
    requires r.phase.InCommand? && !r.phase.command.query && r.phase.stage.Entering? && r.sys.core.flag
    ensures var n := NextAll(probe, r, OwnerAlone());
            && n.queue == r.queue
            && n.phase == Over(if r.sys.evidence.requested then Cancelled
                               else Failed(OwnedModel.Cause(SeenAt(probe, r.sys))))
  {
    var n := r.(phase := Deciding);
    assert NextAll(probe, r, [Owner(GO)]) == NextAll(probe, n, []);
    Onwards(probe, r, [Owner(GO)], [Owner(GO), Owner(GO), Owner(GO), Owner(GO)]);
    DecisionIsCause(probe, n, GO);
    hide SeenAt;
  }

  lemma {:induction false} Failing(probe: S.ProbeTable, e: ReaderError) returns (r: Race)
    ensures r == NextAll(probe, Start(false, 1), ReaderFails(e))
    ensures r.phase == InCommand(NewExchange(false, 1, false), 0, Entering) && r.queue == [Err(e)]
    ensures r.sys.core == S.Core(true, None, S.Checking, S.Alive, S.Alive)
    ensures !r.sys.evidence.requested && r.sys.evidence.lines == []
  {
    var entered := NextAll(probe, Start(false, 1), [Owner(GO), Owner(GO), Owner(GO), OutputFails(e)]);
    FourMoves(probe, Start(false, 1), Owner(GO), Owner(GO), Owner(GO), OutputFails(e));
    Onwards(probe, Start(false, 1), [Owner(GO), Owner(GO), Owner(GO), OutputFails(e)], [Thread(S.GdbSignals)]);
    r := Next(probe, entered, Thread(S.GdbSignals));
    assert NextAll(probe, entered, [Thread(S.GdbSignals)]) == NextAll(probe, r, []);
  }

  /** Poll, server check, entry of a command; a reader fails in between and raises the flag. */
  function ReaderFails(e: ReaderError): seq<Move> {
    [Owner(GO), Owner(GO), Owner(GO), OutputFails(e)] + [Thread(S.GdbSignals)]
  }

  lemma {:induction false} SupervisorKills(probe: S.ProbeTable, r: Race)
    requires r.sys.core == S.Core(true, None, S.Checking, S.Alive, S.Alive)
    ensures NextAll(probe, r, [Thread(S.Supervise), Thread(S.Supervise), Thread(S.Supervise)]) ==
            r.(sys := r.sys.(core := S.Core(true, None, S.Finished, S.Reaped, S.Reaped)))
  {
    FourMoves(probe, r, Thread(S.Supervise), Thread(S.Supervise), Thread(S.Supervise), Begin(false, 0));
    var three := [Thread(S.Supervise), Thread(S.Supervise), Thread(S.Supervise)];
    Onwards(probe, r, [Thread(S.Supervise)], [Thread(S.Supervise), Thread(S.Supervise)]);
  }

  /** A reader's error that reaches the queue between the poll and the first command of the operation: the command is
      refused for the flag before it drains, and the error is not reported. If the supervisor has got as far as killing
      OpenOCD, OpenOCD is blamed. */
  lemma {:induction false} UndrainedErrorHidden(probe: S.ProbeTable, e: ReaderError)
    ensures var fails := ReaderFails(e);
            var kills := [Thread(S.Supervise), Thread(S.Supervise), Thread(S.Supervise)];
            && NextAll(probe, Start(false, 1), fails + OwnerAlone()).phase == Over(Failed(TRANSPORT_FAILED))
            && NextAll(probe, Start(false, 1), fails + OwnerAlone()).queue == [Err(e)]
            && NextAll(probe, Start(false, 1), (fails + kills) + OwnerAlone()).phase == Over(Failed(SERVER_EXITED))
            && NextAll(probe, Start(false, 1), (fails + kills) + OwnerAlone()).queue == [Err(e)]
  {
    var fails := ReaderFails(e);
    var kills := [Thread(S.Supervise), Thread(S.Supervise), Thread(S.Supervise)];
    var failed := Failing(probe, e);
    var killed := failed.(sys := failed.sys.(core := S.Core(true, None, S.Finished, S.Reaped, S.Reaped)));
    SupervisorKills(probe, failed);
    EnterAndDecide(probe, failed);
    EnterAndDecide(probe, killed);
    NothingDiagnosed(probe);
    hide Diagnosis;
    hide OwnerAlone;
    hide ReaderFails;
    hide NextAll;
    Onwards(probe, Start(false, 1), fails, OwnerAlone());
    Onwards(probe, Start(false, 1), fails, kills);
    Onwards(probe, Start(false, 1), fails + kills, OwnerAlone());
  }

  lemma NothingDiagnosed(probe: S.ProbeTable)
    ensures Diagnosis(probe, []).None?
  {}

  /** With the flag up, a poll ends the operation as interrupted and the session as broken exactly if it has to ask
      for the frame of a stop, whether anybody asked to cancel and whatever was published. */
  lemma {:induction false} QueryInterruptsIff(probe: S.ProbeTable, r: Race)
    requires r.phase.Polling? && r.sys.core.flag && Honest(r.queue)
    ensures NextAll(probe, r, [Owner(GO)] + [Owner(GO)]).phase == Over(Broken(T.INTERRUPTION)) <==>
            NeedsQuery(r) && Drained(r).None?
  {
    var n := OwnerStep(probe, r, GO);
    assert NextAll(probe, r, [Owner(GO)]) == NextAll(probe, n, []);
    assert NextAll(probe, n, [Owner(GO)]) == NextAll(probe, OwnerStep(probe, n, GO), []);
    Onwards(probe, r, [Owner(GO)], [Owner(GO)]);
    if Drained(r).Some? {
      DrainErrorFatal(r);
    }
    hide NeedsQuery;
    hide Drained;
    hide NextAll;
  }

  lemma {:induction false} Exiting(probe: S.ProbeTable)
    ensures var exits := [Arrives(Exec("stopped", [])), Thread(S.ServerExits), Thread(S.Supervise),
                          Thread(S.Supervise)];
            NextAll(probe, Start(true, 1), exits) ==
            Start(true, 1).(queue := [Ok(Exec("stopped", []))],
                         sys := S.Init().(core := S.Core(false, None, S.PollingServer(false), S.Alive, S.Exited)))
  {
    FourMoves(probe, Start(true, 1), Arrives(Exec("stopped", [])), Thread(S.ServerExits), Thread(S.Supervise),
              Thread(S.Supervise));
  }

  lemma {:induction false} Publishing(probe: S.ProbeTable, r: Race)
    requires r.sys.core == S.Core(false, None, S.PollingServer(false), S.Alive, S.Exited)
    ensures NextAll(probe, r, [Thread(S.Supervise), Thread(S.Supervise), Thread(S.Supervise), StderrEnds]) ==
            r.(stderrOpen := false,
               sys := r.sys.(core := S.Core(true, Some(S.OpenOcd), S.ReapingGdb, S.Alive, S.Reaped)))
  {
    FourMoves(probe, r, Thread(S.Supervise), Thread(S.Supervise), Thread(S.Supervise), StderrEnds);
  }

  /** That happens: OpenOCD exits, the supervisor publishes it and raises the flag, and a stop without a frame waits for
      the poll. Nobody asked for a cancellation, and the operation is reported as interrupted. */
  lemma {:induction false} ExitReportedAsInterruption(probe: S.ProbeTable)
    ensures var exits := [Arrives(Exec("stopped", [])), Thread(S.ServerExits), Thread(S.Supervise),
                          Thread(S.Supervise)];
            var publishes := [Thread(S.Supervise), Thread(S.Supervise), Thread(S.Supervise), StderrEnds];
            var r := NextAll(probe, Start(true, 1), exits + publishes);
            && Published(r.sys.core.failure) == Some(SERVER_EXITED) && !r.sys.evidence.requested
            && NextAll(probe, r, [Owner(GO)] + [Owner(GO)]).phase == Over(Broken(T.INTERRUPTION))
  {
    var exits := [Arrives(Exec("stopped", [])), Thread(S.ServerExits), Thread(S.Supervise), Thread(S.Supervise)];
    var publishes := [Thread(S.Supervise), Thread(S.Supervise), Thread(S.Supervise), StderrEnds];
    var first := NextAll(probe, Start(true, 1), exits);
    var r := NextAll(probe, Start(true, 1), exits + publishes);
    Exiting(probe);
    Publishing(probe, first);
    hide S.Apply;
    Onwards(probe, Start(true, 1), exits, publishes);
    FramelessStop(r);
    QueryInterruptsIff(probe, r);
  }

  lemma {:induction false} FramelessStop(r: Race)
    requires r.running && r.queue == [Ok(Exec("stopped", []))] && !HungUp(r)
    ensures NeedsQuery(r) && Drained(r).None?
  {
    var records := T.Records(r.queue);
    DrainFailsIff(r.queue, HungUp(r));
    assert records[0] == Exec("stopped", []);
    assert SessionModel.FrameOf(records[0].results).None?;
  }
}
