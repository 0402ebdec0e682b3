/** The owner of a debug session, `owned_session.rs`: launching with live events, executing operations with cleanup,
    and what the published events look like from the first to the last. */
module OwnedModel {
  import opened Common
  import opened SessionModel
  import opened SessionRuns
  import opened SessionEngine

  // ---- Launch ----

  /** What the steps of a launch come to. `serial` and `elf` have passed the probe and artifact checks. */
  datatype LaunchSteps = LaunchSteps(
    probe: Result<()>, artifact: Result<string>, generation: Result<nat>, server: Result<nat>, cancelled: bool,
    gdb: Result<()>, diagnosed: Option<Failure>, supervised: Option<Failure>)

  /** What a launch publishes and leaves behind. */
  datatype Launched = Launched(sink: seq<Event>, outcome: Result<Session>)

  const STARTUP_INTERRUPTED := Failure(Interrupted, INTERRUPTED)

  function ServerEvents(g: nat, serial: string): seq<Event> {
    [ProbeChosen(g, serial), StateChange(g, Idle, ProbeSelected), StateChange(g, ProbeSelected, ServerStarting),
     ServerStarted(g)]
  }

  function ReadyEvents(g: nat, port: nat): seq<Event> {
    [StateChange(g, ServerStarting, ServerReady), ServerIsReady(g, port), StateChange(g, ServerReady, GdbStarting),
     GdbStarted(g)]
  }

  function StartupFailure(g: nat, current: State, error: Failure): seq<Event> {
    var cancelled := error.category == Interrupted;
    var terminal := if cancelled then Cancelling else Failed;
    [StateChange(g, current, terminal),
     if cancelled then Cancelled(g, "session.start") else SessionError(g, error.code),
     StateChange(g, terminal, Disconnecting),
     StateChange(g, Disconnecting, Idle),
     SessionStopped(g, if cancelled then "cancelled" else "error")]
  }

  function ResolveStartup(error: Failure, diagnosed: Option<Failure>, supervised: Option<Failure>): Failure {
    if error.category != Interrupted then error
    else if diagnosed.Some? then diagnosed.value
    else if supervised.Some? then supervised.value
    else error
  }

  /** The cleanup of a connection that failed during startup. */
  function CleanupStartup(w: World, s: Session, error: Failure): Session {
    if error.category == Interrupted then DoCancel(w, s, "session.start") else DoFail(w, s, error)
  }

  function Launch(w: World, serial: string, steps: LaunchSteps): Launched {
    if steps.probe.Err? then Launched([], Err(steps.probe.error))
    else if steps.artifact.Err? then Launched([], Err(steps.artifact.error))
    else if steps.generation.Err? then Launched([], Err(steps.generation.error))
    else
      var g := steps.generation.value;
      var starting := ServerEvents(g, serial);
      if steps.server.Err? then
        Launched(starting + StartupFailure(g, ServerStarting, steps.server.error), Err(steps.server.error))
      else
        var ready := starting + ReadyEvents(g, steps.server.value);
        if steps.cancelled then
          Launched(ready + StartupFailure(g, GdbStarting, STARTUP_INTERRUPTED), Err(STARTUP_INTERRUPTED))
        else if steps.gdb.Err? then
          Launched(ready + StartupFailure(g, GdbStarting, steps.gdb.error), Err(steps.gdb.error))
        else
          var (s, connected) := DoConnect(w, Started(g), serial, steps.server.value, Some(steps.artifact.value));
          if connected.Ok? then Launched(ready, Ok(s))
          else
            var error := ResolveStartup(connected.error, steps.diagnosed, steps.supervised);
            Launched(ready + EventsOf(CleanupStartup(w, s, error).trace), Err(error))
  }

  /** The entries of a history that consists of events only. */
  function Published(events: seq<Event>): seq<Entry> {
    if events == [] then [] else Published(events[..|events| - 1]) + [Ev(events[|events| - 1])]
  }

  lemma {:induction false} PublishedOne(events: seq<Event>, e: Event)
    ensures Published(events + [e]) == Published(events) + [Ev(e)]
  {
    assert (events + [e])[..|events|] == events;
  }

  /** Summaries of two histories, the second beginning where the first ends. */
  function Merge(a: Summary, b: Summary): Summary {
    Summary(b.at, a.connected && b.connected, a.shutdowns + b.shutdowns, a.ends + b.ends, a.loads + b.loads,
            a.stops + b.stops, a.shown + b.shown, a.answered + b.answered)
  }

  lemma {:induction false} AbsorbMerges(a: Summary, b: Summary, entry: Entry)
    ensures Absorb(Merge(a, b), entry) == Merge(a, Absorb(b, entry))
  {
    match entry {
      case Ev(TargetOutput(_, text)) => AppendAssociates(a.shown, b.shown, [FromTarget(text)]);
      case Ev(LogLine(_, _, text)) => AppendAssociates(a.shown, b.shown, [FromGdb(text)]);
      case Ca(CommandCall(_, _, Ok(o))) => AppendAssociates(a.answered, b.answered, RecordTexts(o.records));
      case Ca(WaitCall(Ok(batch))) => AppendAssociates(a.answered, b.answered, RecordTexts(batch));
      case Ca(PollCall(Ok(batch))) => AppendAssociates(a.answered, b.answered, RecordTexts(batch));
      case _ =>
    }
  }

  lemma {:induction false} SumAppend(a: seq<Entry>, b: seq<Entry>, from: Option<State>)
    ensures Sum(a + b, from) == Merge(Sum(a, from), Sum(b, Sum(a, from).at))
  {
    var first := Sum(a, from);
    if b == [] {
      AppendEmpty(a);
      AppendEmpty(first.shown);
      AppendEmpty(first.answered);
    } else {
      var init, last := b[..|b| - 1], b[|b| - 1];
      SumAppend(a, init, from);
      assert a + b == (a + init) + [last];
      SumOne(a + init, last, from);
      AbsorbMerges(first, Sum(init, first.at), last);
    }
  }

  /** A summary without what only calls contribute. */
  function EventsOnly(m: Summary): Summary {
    m.(shutdowns := 0, answered := [])
  }

  lemma AbsorbEventsOnly(m: Summary, entry: Entry)
    ensures entry.Ev? ==> Absorb(EventsOnly(m), entry) == EventsOnly(Absorb(m, entry))
    ensures entry.Ca? ==> EventsOnly(Absorb(m, entry)) == EventsOnly(m)
  {}

  /** Publishing only the events of a history keeps its path, its ends and its texts. */
  lemma {:induction false} SumEventsOf(trace: seq<Entry>, from: Option<State>)
    ensures Sum(Published(EventsOf(trace)), from) == EventsOnly(Sum(trace, from))
  {
    if trace != [] {
      var init, last := trace[..|trace| - 1], trace[|trace| - 1];
      SumEventsOf(init, from);
      AbsorbEventsOnly(Sum(init, from), last);
      if last.Ev? {
        PublishedOne(EventsOf(init), last.event);
        SumOne(Published(EventsOf(init)), last, from);
      } else {
        AppendEmpty(EventsOf(init));
      }
    }
  }

  lemma {:induction false} PublishedAppend(a: seq<Event>, b: seq<Event>)
    ensures Published(a + b) == Published(a) + Published(b)
  {
    if b == [] {
      AppendEmpty(a);
      AppendEmpty(Published(a));
    } else {
      var init, last := b[..|b| - 1], b[|b| - 1];
      assert a + b == (a + init) + [last];
      PublishedAppend(a, init);
      PublishedOne(a + init, last);
      AppendAssociates(Published(a), Published(init), [Ev(last)]);
    }
  }

  function SumPublished(events: seq<Event>): Summary {
    Sum(Published(events), Some(Idle))
  }

  lemma {:induction false} SumPublishedAppend(a: seq<Event>, b: seq<Event>)
    ensures SumPublished(a + b) == Merge(SumPublished(a), Sum(Published(b), SumPublished(a).at))
  {
    PublishedAppend(a, b);
    SumAppend(Published(a), Published(b), Some(Idle));
  }

  lemma {:induction false} SumNext(events: seq<Event>, e: Event)
    ensures SumPublished(events + [e]) == AbsorbEvent(SumPublished(events), e)
  {
    PublishedOne(events, e);
    SumOne(Published(events), Ev(e), Some(Idle));
  }

  /** What a launch has published when nothing but the path so far counts. */
  function At(state: State): Summary {
    Nothing(Some(Idle)).(at := Some(state))
  }

  lemma {:induction false} ServerEventsSum(g: nat, serial: string)
    ensures SumPublished(ServerEvents(g, serial)) == At(ServerStarting)
  {
    var e := ServerEvents(g, serial);
    SumNext([], e[0]);
    SumNext([e[0]], e[1]);
    SumNext([e[0], e[1]], e[2]);
    SumNext([e[0], e[1], e[2]], e[3]);
    assert [] + [e[0]] == [e[0]] && [e[0]] + [e[1]] == [e[0], e[1]] && [e[0], e[1]] + [e[2]] == [e[0], e[1], e[2]];
    assert [e[0], e[1], e[2]] + [e[3]] == e;
  }

  lemma {:induction false} ReadyEventsSum(g: nat, serial: string, port: nat)
    ensures SumPublished(ServerEvents(g, serial) + ReadyEvents(g, port)) == At(GdbStarting)
  {
    ServerEventsSum(g, serial);
    var start, e := ServerEvents(g, serial), ReadyEvents(g, port);
    SumNext(start, e[0]);
    SumNext(start + [e[0]], e[1]);
    SumNext(start + [e[0]] + [e[1]], e[2]);
    SumNext(start + [e[0]] + [e[1]] + [e[2]], e[3]);
    assert start + [e[0]] + [e[1]] + [e[2]] + [e[3]] == start + e;
  }

  lemma {:induction false} StartupFailureSum(published: seq<Event>, g: nat, current: State, error: Failure)
    requires SumPublished(published) == At(current) && (current == ServerStarting || current == GdbStarting)
    ensures SumPublished(published + StartupFailure(g, current, error)) == At(Idle).(ends := 1)
  {
    var e := StartupFailure(g, current, error);
    var terminal := e[0].current;
    var failed := published + [e[0]] + [e[1]];
    TerminalSum(published, g, current, terminal, e[1]);
    ShutSum(failed, g, terminal, e[4].reason);
    FiveAppended(published, e);
  }

  lemma {:induction false} TerminalSum(published: seq<Event>, g: nat, current: State, terminal: State, notice: Event)
    requires SumPublished(published) == At(current) && Edge(current, terminal)
    requires notice.Cancelled? || notice.SessionError?
    ensures SumPublished(published + [StateChange(g, current, terminal)] + [notice]) == At(terminal)
  {
    SumNext(published, StateChange(g, current, terminal));
    SumNext(published + [StateChange(g, current, terminal)], notice);
  }

  lemma {:induction false} ShutSum(published: seq<Event>, g: nat, terminal: State, reason: string)
    requires SumPublished(published) == At(terminal) && Edge(terminal, Disconnecting)
    ensures SumPublished(published + [StateChange(g, terminal, Disconnecting)] + [StateChange(g, Disconnecting, Idle)]
                         + [SessionStopped(g, reason)]) == At(Idle).(ends := 1)
  {
    var p := published + [StateChange(g, terminal, Disconnecting)];
    SumNext(published, StateChange(g, terminal, Disconnecting));
    SumNext(p, StateChange(g, Disconnecting, Idle));
    SumNext(p + [StateChange(g, Disconnecting, Idle)], SessionStopped(g, reason));
  }

  lemma FiveAppended(p: seq<Event>, e: seq<Event>)
    requires |e| == 5
    ensures p + [e[0]] + [e[1]] + [e[2]] + [e[3]] + [e[4]] == p + e
  {}

  predicate EndsWithStop(events: seq<Event>) {
    events != [] && events[|events| - 1].SessionStopped?
  }

  lemma CloseEndsWithStop(w: World, s: Session, reason: string)
    ensures EndsWithStop(EventsOf(Close(w, s, reason).trace))
  {}

  /** A connection takes a started engine to Halted, or fails and leaves it connecting or connected, session unended. */
  lemma {:induction false} ConnectEnds(w: World, g: nat, serial: string, port: nat, elf: string)
    requires 0 < g <= U64_MAX
    ensures var (s, r) := DoConnect(w, Started(g), serial, port, Some(elf));
            Inv(s, Some(GdbStarting)) && SumOf(s, Some(GdbStarting)).ends == 0
            && (r.Ok? ==> s.state == Halted) && (r.Err? ==> s.state == GdbStarting || s.state == Connected)
  {
    ConnectKeeps(w, Started(g), serial, port, Some(elf), Some(GdbStarting));
  }

  lemma {:induction false} CleanupEnds(w: World, s: Session, error: Failure)
    requires Inv(s, Some(GdbStarting)) && s.state != Idle && SumOf(s, Some(GdbStarting)).ends == 0
    ensures var s' := CleanupStartup(w, s, error);
            Inv(s', Some(GdbStarting)) && s'.state == Idle && SumOf(s', Some(GdbStarting)).ends == 1
            && EndsWithStop(EventsOf(s'.trace))
  {
    CleanupKeeps(w, s, error, "session.start", Some(GdbStarting));
    if error.category == Interrupted {
      CloseEndsWithStop(w, Emit(Transition(s, Cancelling), Cancelled(s.generation, "session.start")), "cancelled");
    } else {
      CloseEndsWithStop(w, Emit(Transition(s, Failed), SessionError(s.generation, error.code)), "error");
    }
  }

  /** Whatever its steps come to, what a launch publishes is one connected State path from Idle. A failed launch that
      published anything has ended its session once and last, in Idle; a successful one has reached Halted. */
  lemma {:induction false} LaunchPath(w: World, serial: string, steps: LaunchSteps)
    requires steps.generation.Ok? ==> 0 < steps.generation.value <= U64_MAX
    ensures var l := Launch(w, serial, steps);
            var m := SumPublished(l.sink);
            && m.connected
            && (l.outcome.Err? && l.sink != [] ==> m.at == Some(Idle) && m.ends == 1 && EndsWithStop(l.sink))
            && (l.outcome.Ok? ==> m == At(GdbStarting) && Inv(l.outcome.value, Some(GdbStarting))
                                  && l.outcome.value.state == Halted
                                  && SumOf(l.outcome.value, Some(GdbStarting)).ends == 0)
  {
    if steps.probe.Ok? && steps.artifact.Ok? && steps.generation.Ok? {
      var g := steps.generation.value;
      ServerEventsSum(g, serial);
      if steps.server.Err? {
        StartupFailureSum(ServerEvents(g, serial), g, ServerStarting, steps.server.error);
      } else {
        var ready := ServerEvents(g, serial) + ReadyEvents(g, steps.server.value);
        ReadyEventsSum(g, serial, steps.server.value);
        if steps.cancelled {
          StartupFailureSum(ready, g, GdbStarting, STARTUP_INTERRUPTED);
        } else if steps.gdb.Err? {
          StartupFailureSum(ready, g, GdbStarting, steps.gdb.error);
        } else {
          ConnectPath(w, g, serial, steps.server.value, steps.artifact.value, steps.diagnosed, steps.supervised, ready);
        }
      }
    }
  }

  lemma {:induction false} ConnectPath(
    w: World, g: nat, serial: string, port: nat, elf: string, diagnosed: Option<Failure>,
                    supervised: Option<Failure>, ready: seq<Event>)
    requires 0 < g <= U64_MAX && SumPublished(ready) == At(GdbStarting)
    ensures var (s, connected) := DoConnect(w, Started(g), serial, port, Some(elf));
            if connected.Ok? then
              Inv(s, Some(GdbStarting)) && s.state == Halted && SumOf(s, Some(GdbStarting)).ends == 0
            else
              var cleaned := CleanupStartup(w, s, ResolveStartup(connected.error, diagnosed, supervised));
              var sink := ready + EventsOf(cleaned.trace);
              var m := SumPublished(sink);
              m.connected && m.at == Some(Idle) && m.ends == 1 && EndsWithStop(sink)
  {
    ConnectEnds(w, g, serial, port, elf);
    var (s, connected) := DoConnect(w, Started(g), serial, port, Some(elf));
    if connected.Err? {
      var cleaned := CleanupStartup(w, s, ResolveStartup(connected.error, diagnosed, supervised));
      CleanupEnds(w, s, ResolveStartup(connected.error, diagnosed, supervised));
      ContinuedSum(ready, cleaned);
      StaysKnown(cleaned.trace, GdbStarting);
    }
  }

  /** Publishing an engine's events after a launch has reached GdbStarting. */
  lemma {:induction false} ContinuedSum(ready: seq<Event>, s: Session)
    requires SumPublished(ready) == At(GdbStarting)
    ensures SumPublished(ready + EventsOf(s.trace)) == Merge(At(GdbStarting), EventsOnly(SumOf(s, Some(GdbStarting))))
  {
    SumPublishedAppend(ready, EventsOf(s.trace));
    SumEventsOf(s.trace, Some(GdbStarting));
  }

  // ---- Executing operations ----

  /** What the owner sees around one operation: whether the server is alive before it, whether the user has asked to
      cancel, and the failures it finds when the operation comes back interrupted. */
  datatype Seen = Seen(alive: Result<()>, requested: bool, diagnosed: Option<Failure>, supervised: Option<Failure>,
                       aliveLater: Result<()>)

  predicate Fatal(e: Failure) {
    e.code in {GDB_EXITED, GDB_READ_FAILED, GDB_WRITE_FAILED, GDB_COMMAND_TIMEOUT, GDB_STOP_TIMEOUT,
               GDB_TARGET_DISCONNECTED, MI_RECORD_INVALID, MI_TOKEN_INVALID, MI_RECORD_TOO_LARGE, MI_RECORD_TRUNCATED,
               MI_UTF8_INVALID}
  }

  /** The cause reported for an interruption that the user did not ask for. */
  function Cause(seen: Seen): Failure {
    if seen.diagnosed.Some? then seen.diagnosed.value
    else if seen.supervised.Some? then seen.supervised.value
    else if seen.aliveLater.Err? then seen.aliveLater.error
    else Failure(Debugger, DEBUG_TRANSPORT_FAILED)
  }

  /** The operation itself, with the cleanup its error calls for. */
  function Finish(w: World, s: Session, op: Op, seen: Seen): (Session, Outcome) {
    var (s', r) := Do(w, s, op);
    if r.Ok? then (s', r)
    else if r.error.category == Interrupted then
      if seen.requested then (DoCancel(w, s', "in_flight"), r) else (DoFail(w, s', Cause(seen)), Err(Cause(seen)))
    else if Fatal(r.error) then (DoFail(w, s', r.error), r)
    else (s', r)
  }

  function Execute(w: World, s: Session, op: Op, seen: Seen): (Session, Outcome) {
    var (s1, polled) := DoPoll(w, s);
    if polled.Err? then (DoFail(w, s1, polled.error), polled)
    else if seen.alive.Err? then (DoFail(w, s1, seen.alive.error), Err(seen.alive.error))
    else Finish(w, s1, op, seen)
  }

  /** What an event poll does when it finds the cancellation flag set. */
  function Synchronize(w: World, s: Session, flagged: bool, seen: Seen): Session {
    if !flagged || s.state == Idle then s
    else if seen.requested then DoCancel(w, s, "external")
    else DoFail(w, s, Cause(seen))
  }

  /** The owner's operations, with what it sees during each. */
  datatype Request =
    | Ask(op: Op, seen: Seen)
    | Collect(flagged: bool, seen: Seen)
    | Quit
    | Abort(operation: string)

  function Serve(w: World, s: Session, request: Request): Session {
    match request
    case Ask(op, seen) => Execute(w, s, op, seen).0
    case Collect(flagged, seen) =>
      var (s1, polled) := DoPoll(w, s);
      Synchronize(w, if polled.Err? then DoFail(w, s1, polled.error) else s1, flagged, seen)
    case Quit => DoStop(w, s).0
    case Abort(operation) => DoCancel(w, s, operation)
  }

  function ServeAll(w: World, s: Session, requests: seq<Request>): Session
    decreases |requests|
  {
    if requests == [] then s else ServeAll(w, Serve(w, s, requests[0]), requests[1..])
  }

  /** An owner never starts its engine again. */
  predicate NoRestart(request: Request) {
    request.Ask? ==> !request.op.Start?
  }

  /** The engine is sound and its session has ended exactly when it is idle, once. */
  predicate Sound(s: Session) {
    Inv(s, Some(GdbStarting)) && SumOf(s, Some(GdbStarting)).ends == if s.state == Idle then 1 else 0
  }

  /** `s'` is sound; if `s` was idle nothing at all has happened. */
  predicate Follows(s: Session, s': Session) {
    Sound(s') && (s.state == Idle ==> s' == s)
  }

  lemma {:induction false} OpFollows(w: World, s: Session, op: Op)
    requires Sound(s) && !op.Start?
    ensures Follows(s, Do(w, s, op).0)
  {
    OpKeeps(w, s, op, Some(GdbStarting));
    if s.state == Idle {
      RefusedUntouched(w, s, op);
    }
  }

  lemma {:induction false} CleanupFollows(w: World, s: Session, cause: Failure, operation: string)
    requires Sound(s)
    ensures Follows(s, DoFail(w, s, cause)) && Follows(s, DoCancel(w, s, operation)) && Follows(s, DoStop(w, s).0)
  {
    CleanupKeeps(w, s, cause, operation, Some(GdbStarting));
  }

  lemma {:induction false} FinishFollows(w: World, s: Session, op: Op, seen: Seen)
    requires Sound(s) && !op.Start?
    ensures Follows(s, Finish(w, s, op, seen).0)
  {
    hide Do;
    hide DoFail;
    hide DoCancel;
    hide Sound;
    hide Fatal;
    OpFollows(w, s, op);
    var (s', r) := Do(w, s, op);
    CleanupFollows(w, s', if r.Err? && r.error.category != Interrupted then r.error else Cause(seen), "in_flight");
  }

  lemma {:induction false} PollFollows(w: World, s: Session)
    requires Sound(s)
    ensures Follows(s, DoPoll(w, s).0)
  {
    PollKeeps(w, s, Some(GdbStarting));
  }

  lemma {:induction false} ServeFollows(w: World, s: Session, request: Request)
    requires Sound(s) && NoRestart(request)
    ensures Follows(s, Serve(w, s, request))
  {
    var (s1, polled) := DoPoll(w, s);
    PollFollows(w, s);
    match request {
      case Ask(op, seen) =>
        if polled.Err? {
          CleanupFollows(w, s1, polled.error, "");
        } else if seen.alive.Err? {
          CleanupFollows(w, s1, seen.alive.error, "");
        } else {
          FinishFollows(w, s1, op, seen);
        }
      case Collect(flagged, seen) =>
        var s2 := if polled.Err? then DoFail(w, s1, polled.error) else s1;
        if polled.Err? {
          CleanupFollows(w, s1, polled.error, "");
        }
        CleanupFollows(w, s2, Cause(seen), "external");
      case Quit =>
        CleanupFollows(w, s, STARTUP_INTERRUPTED, "");
      case Abort(operation) =>
        CleanupFollows(w, s, STARTUP_INTERRUPTED, operation);
    }
  }

  lemma {:induction false} ServeAllFollows(w: World, s: Session, requests: seq<Request>)
    requires Sound(s) && forall i :: 0 <= i < |requests| ==> NoRestart(requests[i])
    ensures Follows(s, ServeAll(w, s, requests))
    decreases |requests|
  {
    if requests != [] {
      ServeFollows(w, s, requests[0]);
      ServeAllFollows(w, Serve(w, s, requests[0]), requests[1..]);
    }
  }

  /** After a successful launch, whatever the owner is asked and sees, all State events from the first published one on
      form one path from Idle to the engine's state; the session has ended exactly when the engine is idle, once; and
      once it is idle nothing is ever added. */
  lemma {:induction false} OwnedRun(
    w: World, serial: string, steps: LaunchSteps, requests: seq<Request>, more: seq<Request>)
    requires steps.generation.Ok? ==> 0 < steps.generation.value <= U64_MAX
    requires Launch(w, serial, steps).outcome.Ok?
    requires forall i :: 0 <= i < |requests| ==> NoRestart(requests[i])
    requires forall i :: 0 <= i < |more| ==> NoRestart(more[i])
    ensures var l := Launch(w, serial, steps);
            var s := ServeAll(w, l.outcome.value, requests);
            var m := SumPublished(l.sink + EventsOf(s.trace));
            && m.connected && m.at == Some(s.state) && Settled(s.state)
            && m.ends == (if s.state == Idle then 1 else 0)
            && (s.state == Idle ==> ServeAll(w, s, more) == s)
  {
    LaunchPath(w, serial, steps);
    var l := Launch(w, serial, steps);
    var s := ServeAll(w, l.outcome.value, requests);
    ServeAllFollows(w, l.outcome.value, requests);
    ServeAllFollows(w, s, more);
    ContinuedSum(l.sink, s);
    StaysKnown(s.trace, GdbStarting);
  }

  /** A session survives an execution exactly when the poll and the server check pass and the operation does not end
      interrupted or with a fatal error; otherwise it is cleaned up to Idle. */
  lemma {:induction false} ExecuteSurvivesIff(w: World, s: Session, op: Op, seen: Seen)
    requires s.state != Idle && !op.Stop? && !op.Fail? && !op.Cancel?
    ensures var (s1, polled) := DoPoll(w, s);
            var r := Do(w, s1, op).1;
            (Execute(w, s, op, seen).0.state != Idle <==>
             polled.Ok? && seen.alive.Ok? && (r.Ok? || (r.error.category != Interrupted && !Fatal(r.error))))
  {
    hide Fatal;
    hide Cause;
    hide Do;
    hide DoFail;
    hide DoCancel;
    var (s1, polled) := DoPoll(w, s);
    PollIsOp(w, s);
    hide DoPoll;
    StaysLive(w, s, PollEvents);
    StaysLive(w, s1, op);
    var (s2, r) := Do(w, s1, op);
    if polled.Err? {
      EndsIdle(w, s1, polled.error, "in_flight");
    } else if seen.alive.Err? {
      EndsIdle(w, s1, seen.alive.error, "in_flight");
    } else if r.Err? {
      EndsIdle(w, s2, r.error, "in_flight");
      EndsIdle(w, s2, Cause(seen), "in_flight");
    }
  }

  lemma PollIsOp(w: World, s: Session)
    ensures Do(w, s, PollEvents) == DoPoll(w, s)
  {}

  lemma EndsIdle(w: World, s: Session, cause: Failure, operation: string)
    ensures DoFail(w, s, cause).state == Idle && DoCancel(w, s, operation).state == Idle
  {}

  lemma {:induction false} StaysLive(w: World, s: Session, op: Op)
    requires s.state != Idle && !op.Stop? && !op.Fail? && !op.Cancel?
    ensures Do(w, s, op).0.state != Idle
  {
    hide StoppedDetails;
    hide FrameOf;
    hide FindTuple;
    hide CapturedAll;
    hide CommandError;
    if op.Inspect? && s.state == Halted && op.badArgument.None? {
      QueriesStay(w, s, op.queries);
    }
  }

  lemma {:induction false} QueriesStay(w: World, s: Session, queries: seq<Query>)
    ensures DoQueries(w, s, queries).0.state == s.state
    decreases |queries|
  {
    if queries != [] {
      QueriesStay(w, Run(w, s, Inspection(queries[0].command), false, WantDone).0, queries[1..]);
    }
  }
}
