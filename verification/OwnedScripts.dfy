/** How the owner of a debug session ends it: which cause is reported, and what is published for it. */
module OwnedScripts {
  import opened Common
  import opened SessionModel
  import opened SessionScripts
  import opened SessionPlays
  import opened OwnedModel
  import opened SessionEngine

  /** The session's end: the terminal state is entered and announced, GDB is shut down, and the engine is idle. */
  function EndItems(g: nat, from: State, terminal: State, notice: Event, reason: string): seq<Item> {
    [Told(StateChange(g, from, terminal)), Told(notice), Told(StateChange(g, terminal, Disconnecting)), ShutDown,
     Told(StateChange(g, Disconnecting, Idle)), Told(SessionStopped(g, reason))]
  }

  /** The session has failed, and nothing else has happened since. */
  ghost predicate FailedWith(s: Session, s': Session, code: Code) {
    s'.state == Idle
    && Grew(s, s', EndItems(s.generation, s.state, Failed, SessionError(s.generation, code), "error"))
  }

  ghost predicate CancelledWith(s: Session, s': Session, operation: string) {
    s'.state == Idle
    && Grew(s, s', EndItems(s.generation, s.state, State.Cancelling, Cancelled(s.generation, operation), "cancelled"))
  }

  lemma {:induction false} Ends(w: World, s: Session, to: State, e: Event, reason: string)
    requires s.generation > 0 && OfOutline(e)
    ensures var s' := Close(w, Emit(Transition(s, to), e), reason);
            s'.state == Idle && Grew(s, s', EndItems(s.generation, s.state, to, e, reason))
  {
    EndPlays(w, s, to, e, reason);
    PlayEnd(w, s.calls, s.generation, s.state, to, e, reason);
    hide Outline;
    hide CallsOf;
    hide StateAfter;
    hide Play;
    hide EndItems;
  }

  lemma {:induction false} PlayEnd(w: World, n: nat, g: nat, from: State, to: State, e: Event, reason: string)
    requires g > 0
    ensures Play(w, n, Enter(g, from, to, Tell(e, SessionScripts.Closing(w, n, g, to, reason, false)))).0 ==
            EndItems(g, from, to, e, reason)
  {
    var stopped := Tell(SessionStopped(g, reason), Return(None));
    var idle := Tell(StateChange(g, Disconnecting, Idle), stopped);
    assert Play(w, n + 1, stopped).0 == [Told(SessionStopped(g, reason))];
    assert Play(w, n, Script.Quit(idle)).0 ==
           [ShutDown, Told(StateChange(g, Disconnecting, Idle)), Told(SessionStopped(g, reason))];
    var closing := SessionScripts.Closing(w, n, g, to, reason, false);
    assert closing == Tell(StateChange(g, to, Disconnecting), Script.Quit(idle));
    assert Play(w, n, closing).0 ==
           [Told(StateChange(g, to, Disconnecting)), ShutDown, Told(StateChange(g, Disconnecting, Idle)),
            Told(SessionStopped(g, reason))];
    hide SessionScripts.Closing;
    assert Play(w, n, Tell(e, closing)).0 == [Told(e)] + Play(w, n, closing).0;
    var all := Tell(StateChange(g, from, to), Tell(e, closing));
    assert Play(w, n, all).0 == [Told(StateChange(g, from, to))] + Play(w, n, Tell(e, closing)).0;
    assert all == Enter(g, from, to, Tell(e, closing));
  }

  lemma {:induction false} FailEnds(w: World, s: Session, cause: Failure)
    requires s.generation > 0 && s.state != Idle
    ensures FailedWith(s, DoFail(w, s, cause), cause.code)
  {
    Ends(w, s, Failed, SessionError(s.generation, cause.code), "error");
    hide Grew;
    hide Close;
  }

  lemma {:induction false} CancelEnds(w: World, s: Session, operation: string)
    requires s.generation > 0 && s.state != Idle
    ensures CancelledWith(s, DoCancel(w, s, operation), operation)
  {
    Ends(w, s, State.Cancelling, Cancelled(s.generation, operation), "cancelled");
    hide Grew;
    hide Close;
  }

  /** What is blamed for an interruption that nobody asked for: first what OpenOCD's log says, then what the supervisor
      has seen, then whether the server is dead. */
  ghost predicate Blamed(seen: Seen, cause: Failure) {
    && (seen.diagnosed.Some? ==> cause == seen.diagnosed.value)
    && (seen.diagnosed.None? && seen.supervised.Some? ==> cause == seen.supervised.value)
    && (seen.diagnosed.None? && seen.supervised.None? && seen.aliveLater.Err? ==> cause == seen.aliveLater.error)
    && (seen.diagnosed.None? && seen.supervised.None? && seen.aliveLater.Ok?
        ==> cause == Failure(Debugger, DEBUG_TRANSPORT_FAILED))
  }

  lemma CauseIsBlamed(seen: Seen)
    ensures forall cause :: Blamed(seen, cause) <==> cause == Cause(seen)
  {}

  /** The errors after which GDB cannot be used any more. */
  const DEADLY := [GDB_EXITED, GDB_READ_FAILED, GDB_WRITE_FAILED, GDB_COMMAND_TIMEOUT, GDB_STOP_TIMEOUT,
                   GDB_TARGET_DISCONNECTED, MI_RECORD_INVALID, MI_TOKEN_INVALID, MI_RECORD_TOO_LARGE,
                   MI_RECORD_TRUNCATED, MI_UTF8_INVALID]

  lemma FatalIsDeadly(e: Failure)
    ensures Fatal(e) <==> e.code in DEADLY
  {}

  /** An operation of a live session, between the poll that precedes it and the cleanup its end calls for: a failed poll
      and a dead server end the session before the operation; an interruption ends it as cancelled if the user asked,
      otherwise as failed for the cause to blame, which is then also the error returned; a deadly error ends it as
      failed; any other outcome is passed on. */
  lemma {:induction false} ExecuteDecides(w: World, s: Session, op: Op, seen: Seen, cause: Failure)
    requires s.state != Idle && s.generation > 0
    requires !op.Start? && !op.Stop? && !op.Fail? && !op.Cancel? && Blamed(seen, cause)
    ensures var (s1, polled) := Do(w, s, PollEvents);
            var (s2, r) := Do(w, s1, op);
            var (s', out) := Execute(w, s, op, seen);
            if polled.Err? then out == polled && FailedWith(s1, s', polled.error.code)
            else if seen.alive.Err? then out == Err(seen.alive.error) && FailedWith(s1, s', seen.alive.error.code)
            else if r.Err? && r.error.category == Interrupted && seen.requested then
              out == r && CancelledWith(s2, s', "in_flight")
            else if r.Err? && r.error.category == Interrupted then out == Err(cause) && FailedWith(s2, s', cause.code)
            else if r.Err? && r.error.code in DEADLY then out == r && FailedWith(s2, s', r.error.code)
            else s' == s2 && out == r
  {
    hide Do;
    hide DoFail;
    hide DoCancel;
    hide Fatal;
    hide Cause;
    hide Blamed;
    hide FailedWith;
    hide CancelledWith;
    CauseIsBlamed(seen);
    PollIsOp(w, s);
    hide DoPoll;
    StaysLive(w, s, PollEvents);
    ProbeAndGeneration(w, s, PollEvents);
    var (s1, polled) := Do(w, s, PollEvents);
    StaysLive(w, s1, op);
    ProbeAndGeneration(w, s1, op);
    var (s2, r) := Do(w, s1, op);
    if polled.Err? {
      FailEnds(w, s1, polled.error);
    } else if seen.alive.Err? {
      FailEnds(w, s1, seen.alive.error);
    } else if r.Err? {
      FatalIsDeadly(r.error);
      FailEnds(w, s2, r.error);
      FailEnds(w, s2, cause);
      CancelEnds(w, s2, "in_flight");
    }
  }

  /** A set cancellation flag that an event poll finds ends the session, as cancelled if the user asked. */
  lemma {:induction false} FlagDecides(w: World, s: Session, flagged: bool, seen: Seen, cause: Failure)
    requires s.generation > 0 && Blamed(seen, cause)
    ensures var s' := Synchronize(w, s, flagged, seen);
            if !flagged || s.state == Idle then s' == s
            else if seen.requested then CancelledWith(s, s', "external")
            else FailedWith(s, s', cause.code)
  {
    hide DoFail;
    hide DoCancel;
    CauseIsBlamed(seen);
    if flagged && s.state != Idle {
      FailEnds(w, s, cause);
      CancelEnds(w, s, "external");
    }
  }

  // ---- Launching ----

  /** The events of a launch up to the server's start, and up to GDB's. */
  function Opening(g: nat, serial: string): seq<Event> {
    [ProbeChosen(g, serial), StateChange(g, Idle, ProbeSelected), StateChange(g, ProbeSelected, ServerStarting),
     ServerStarted(g)]
  }

  function Ready(g: nat, serial: string, port: nat): seq<Event> {
    Opening(g, serial)
    + [StateChange(g, ServerStarting, ServerReady), ServerIsReady(g, port), StateChange(g, ServerReady, GdbStarting),
       GdbStarted(g)]
  }

  function Failing(g: nat, from: State, code: Code): seq<Event> {
    [StateChange(g, from, Failed), SessionError(g, code), StateChange(g, Failed, Disconnecting),
     StateChange(g, Disconnecting, Idle), SessionStopped(g, "error")]
  }

  function Aborting(g: nat, from: State): seq<Event> {
    [StateChange(g, from, State.Cancelling), Cancelled(g, "session.start"),
     StateChange(g, State.Cancelling, Disconnecting), StateChange(g, Disconnecting, Idle),
     SessionStopped(g, "cancelled")]
  }

  function Closing(g: nat, from: State, error: Failure): seq<Event> {
    if error.category == Interrupted then Aborting(g, from) else Failing(g, from, error.code)
  }

  /** The error and the events of a launch that ends before the engine is there. Nothing is published before the session
      has a generation; after that, what was published is closed. */
  lemma {:induction false} EarlyLaunch(w: World, serial: string, steps: LaunchSteps)
    ensures var l := Launch(w, serial, steps);
            if steps.probe.Err? then l == Launched([], Err(steps.probe.error))
            else if steps.artifact.Err? then l == Launched([], Err(steps.artifact.error))
            else if steps.generation.Err? then l == Launched([], Err(steps.generation.error))
            else
              var g := steps.generation.value;
              if steps.server.Err? then
                l == Launched(Opening(g, serial) + Closing(g, ServerStarting, steps.server.error),
                              Err(steps.server.error))
              else
                var ready := Ready(g, serial, steps.server.value);
                if steps.cancelled then
                  l == Launched(ready + Aborting(g, GdbStarting), Err(Failure(Interrupted, INTERRUPTED)))
                else if steps.gdb.Err? then
                  l == Launched(ready + Closing(g, GdbStarting, steps.gdb.error), Err(steps.gdb.error))
                else ready <= l.sink
  {
    hide EventsOf;
    hide DoConnect;
  }

  /** Whom a failed connection is blamed on: an interruption on what the log says, else on what the supervisor saw; any
      other failure on itself. */
  ghost predicate StartupBlamed(error: Failure, steps: LaunchSteps, cause: Failure) {
    cause == if error.category != Interrupted || (steps.diagnosed.None? && steps.supervised.None?) then error
             else if steps.diagnosed.Some? then steps.diagnosed.value
             else steps.supervised.value
  }

  /** Once GDB is there, a launch is a connection: it succeeds with it, and otherwise fails for the cause to blame and
      publishes what the connection told and then the end, as cancelled or as failed. */
  lemma {:induction false} LateLaunch(w: World, serial: string, steps: LaunchSteps, cause: Failure)
    requires steps.probe.Ok? && steps.artifact.Ok? && steps.generation.Ok? && steps.server.Ok?
    requires !steps.cancelled && steps.gdb.Ok? && 0 < steps.generation.value <= U64_MAX
    requires var r := Do(w, Started(steps.generation.value),
                         Connect(serial, steps.server.value, Some(steps.artifact.value))).1;
             r.Err? ==> StartupBlamed(r.error, steps, cause)
    ensures var l := Launch(w, serial, steps);
            var g := steps.generation.value;
            var ready := Ready(g, serial, steps.server.value);
            var (s, r) := Do(w, Started(g), Connect(serial, steps.server.value, Some(steps.artifact.value)));
            if r.Ok? then l == Launched(ready, Ok(s))
            else l == Launched(ready + EventsOf(s.trace) + Closing(g, s.state, cause), Err(cause))
  {
    var g := steps.generation.value;
    var (s, r) := DoConnect(w, Started(g), serial, steps.server.value, Some(steps.artifact.value));
    EarlyLaunch(w, serial, steps);
    if r.Err? {
      ConnectEnds(w, g, serial, steps.server.value, steps.artifact.value);
      ProbeAndGeneration(w, Started(g), Connect(serial, steps.server.value, Some(steps.artifact.value)));
      CleanupTells(w, s, cause);
      AppendAssociates(Ready(g, serial, steps.server.value), EventsOf(s.trace), Closing(g, s.state, cause));
    }
    hide EventsOf;
    hide DoConnect;
  }

  /** The events of a cleanup. */
  lemma {:induction false} CleanupTells(w: World, s: Session, error: Failure)
    requires s.generation > 0 && s.state != Idle
    ensures EventsOf(CleanupStartup(w, s, error).trace) == EventsOf(s.trace) + Closing(s.generation, s.state, error)
  {
    var g := s.generation;
    if error.category == Interrupted {
      CloseTells(w, s, State.Cancelling, Cancelled(g, "session.start"), "cancelled");
    } else {
      CloseTells(w, s, Failed, SessionError(g, error.code), "error");
    }
    hide EventsOf;
  }

  lemma {:induction false} CloseTells(w: World, s: Session, to: State, e: Event, reason: string)
    requires s.generation > 0
    ensures var g := s.generation;
            EventsOf(Close(w, Emit(Transition(s, to), e), reason).trace) ==
            EventsOf(s.trace) + [StateChange(g, s.state, to), e, StateChange(g, to, Disconnecting),
                                 StateChange(g, Disconnecting, Idle), SessionStopped(g, reason)]
  {
    var g := s.generation;
    var a := Transition(s, to);
    var b := Emit(a, e);
    var c := Transition(b, Disconnecting);
    var d := Issue(c, ShutdownCall(w.shutdown(c.calls)));
    var f := Transition(d, Idle);
    EventsOfOne(s.trace, Ev(StateChange(g, s.state, to)));
    EventsOfOne(a.trace, Ev(e));
    EventsOfOne(b.trace, Ev(StateChange(g, to, Disconnecting)));
    EventsOfOne(c.trace, Ca(ShutdownCall(w.shutdown(c.calls))));
    EventsOfOne(d.trace, Ev(StateChange(g, Disconnecting, Idle)));
    EventsOfOne(f.trace, Ev(SessionStopped(g, reason)));
    hide EventsOf;
  }
}
