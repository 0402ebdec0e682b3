/** `OwnedDebugSession` of `owned_session.rs`: the object that owns an engine, its server and its supervisor. */
module OwnedSession {
  import opened Common
  import opened SessionModel
  import opened OwnedModel
  import SessionEngine

  /** The process-wide counter behind `next_generation`. */
  class GenerationCounter {
    var next: nat

    constructor ()
      ensures next == 1
    {
      next := 1;
    }

    /** Generations never repeat and never reach zero. */
    method Take() returns (r: Result<nat>)
      requires 1 <= next <= U64_MAX
      modifies this
      ensures 1 <= next <= U64_MAX
      ensures r.Ok? <==> old(next) < U64_MAX
      ensures r.Ok? ==> r.value == old(next) && next == r.value + 1
      ensures r.Err? ==> next == old(next) && r.error.code == SESSION_GENERATION_EXHAUSTED
    {
      if next == U64_MAX {
        return Err(Failure(Debugger, SESSION_GENERATION_EXHAUSTED));
      }
      r := Ok(next);
      next := next + 1;
    }
  }

  /** Connects a started engine; on failure cleans it up and publishes its events. */
  method ConnectEngine(world: World, g: nat, serial: string, port: nat, elf: string, diagnosed: Option<Failure>,
                       supervised: Option<Failure>)
    returns (sink: seq<Event>, r: Result<SessionEngine.SessionEngine>)
    ensures var (s, connected) := DoConnect(world, Started(g), serial, port, Some(elf));
            if connected.Ok? then
              r.Ok? && sink == [] && fresh(r.value) && r.value.world == world && r.value.Valid() && r.value.taken == []
              && r.value.Abs() == s
            else
              var error := ResolveStartup(connected.error, diagnosed, supervised);
              r.Err? && r.error == error && sink == SessionEngine.EventsOf(CleanupStartup(world, s, error).trace)
  {
    var engine := new SessionEngine.SessionEngine.WithStartedLifecycle(world, g);
    assert engine.taken == [];
    var connected := engine.ConnectStarted(serial, port, Some(elf));
    if connected.Ok? {
      return [], Ok(engine);
    }
    var error := ResolveStartup(connected.error, diagnosed, supervised);
    if error.category == Interrupted {
      engine.CancelSession("session.start");
    } else {
      engine.FailAndCleanup(error);
    }
    assert engine.Abs().trace == engine.trace;
    sink := engine.TakeEvents();
    r := Err(error);
  }

  /** The event for what a log has gained. */
  function NewLog(generation: nat, reported: string, log: string): seq<Event>
    requires reported <= log
  {
    if log == reported then [] else [LogLine(generation, "openocd", log[|reported|..])]
  }

  /** `launch_with_event_sink`: publishes as it goes and hands over a connected engine. */
  method LaunchWithEventSink(world: World, serial: string, steps: LaunchSteps)
    returns (sink: seq<Event>, r: Result<OwnedDebugSession>)
    ensures var l := Launch(world, serial, steps);
            sink == l.sink && r.Ok? == l.outcome.Ok?
            && (r.Err? ==> r.error == l.outcome.error)
            && (r.Ok? ==> fresh(r.value) && fresh(r.value.engine) && r.value.Valid() && r.value.engine.world == world
                          && r.value.engine.Abs() == l.outcome.value && r.value.pendingEvents == []
                          && r.value.reported == "")
  {
    sink := [];
    if steps.probe.Err? {
      return sink, Err(steps.probe.error);
    }
    if steps.artifact.Err? {
      return sink, Err(steps.artifact.error);
    }
    if steps.generation.Err? {
      return sink, Err(steps.generation.error);
    }
    var g := steps.generation.value;
    sink := ServerEvents(g, serial);
    if steps.server.Err? {
      return sink + StartupFailure(g, ServerStarting, steps.server.error), Err(steps.server.error);
    }
    sink := sink + ReadyEvents(g, steps.server.value);
    if steps.cancelled {
      return sink + StartupFailure(g, GdbStarting, STARTUP_INTERRUPTED), Err(STARTUP_INTERRUPTED);
    }
    if steps.gdb.Err? {
      return sink + StartupFailure(g, GdbStarting, steps.gdb.error), Err(steps.gdb.error);
    }
    var rest, engine := ConnectEngine(world, g, serial, steps.server.value, steps.artifact.value, steps.diagnosed,
                                      steps.supervised);
    if engine.Err? {
      return sink + rest, Err(engine.error);
    }
    var owned := new OwnedDebugSession(engine.value);
    r := Ok(owned);
  }

  class OwnedDebugSession {
    const engine: SessionEngine.SessionEngine
    var openocdLogOffset: nat
    var pendingEvents: seq<Event>
    var serverStopped: bool
    var supervisorJoined: bool
    /** The OpenOCD log text published so far. */
    ghost var reported: string

    constructor (engine: SessionEngine.SessionEngine)
      requires engine.Valid()
      ensures Valid() && this.engine == engine && pendingEvents == [] && reported == "" && openocdLogOffset == 0
    {
      this.engine := engine;
      openocdLogOffset, pendingEvents, serverStopped, supervisorJoined := 0, [], false, false;
      reported := "";
    }

    ghost predicate Valid()
      reads this, engine
    {
      engine.Valid() && |reported| == openocdLogOffset
    }

    method StopServerAndJoin()
      modifies this`serverStopped, this`supervisorJoined
      ensures serverStopped && supervisorJoined
    {
      serverStopped := true;
      supervisorJoined := true;
    }

    /** Runs an operation behind a poll and a server check. Whenever the engine is cleaned up because of what is seen
        here, the server is stopped and the supervisor joined before the error is returned. */
    method ExecuteOp(op: Op, seen: Seen) returns (r: Outcome)
      requires Valid()
      modifies this`serverStopped, this`supervisorJoined, engine
      ensures Valid() && (engine.Abs(), r) == Execute(engine.world, old(engine.Abs()), op, seen)
      ensures engine.taken == old(engine.taken)
      ensures old(engine.state) != Idle && engine.state == Idle && !op.Stop? && !op.Fail? && !op.Cancel? ==>
                serverStopped && supervisorJoined
    {
      var polled := engine.PollTransport();
      if polled.Err? {
        engine.FailAndCleanup(polled.error);
        StopServerAndJoin();
        return polled;
      }
      if seen.alive.Err? {
        engine.FailAndCleanup(seen.alive.error);
        StopServerAndJoin();
        return Err(seen.alive.error);
      }
      r := FinishOp(op, seen);
    }

    method FinishOp(op: Op, seen: Seen) returns (r: Outcome)
      requires Valid()
      modifies this`serverStopped, this`supervisorJoined, engine
      ensures Valid() && (engine.Abs(), r) == Finish(engine.world, old(engine.Abs()), op, seen)
      ensures engine.taken == old(engine.taken)
      ensures old(engine.state) != Idle && engine.state == Idle && !op.Stop? && !op.Fail? && !op.Cancel? ==>
                serverStopped && supervisorJoined
    {
      hide Do;
      hide DoFail;
      hide DoCancel;
      hide Cause;
      hide Fatal;
      ghost var before := engine.Abs();
      r := engine.Perform(op);
      if before.state != Idle && !op.Stop? && !op.Fail? && !op.Cancel? {
        StaysLive(engine.world, before, op);
      }
      if r.Ok? {
        return r;
      }
      if r.error.category == Interrupted {
        if seen.requested {
          engine.CancelSession("in_flight");
        } else {
          engine.FailAndCleanup(Cause(seen));
          r := Err(Cause(seen));
        }
        StopServerAndJoin();
      } else if Fatal(r.error) {
        engine.FailAndCleanup(r.error);
        StopServerAndJoin();
      }
    }

    method SynchronizeTransport()
      requires Valid()
      modifies this`serverStopped, this`supervisorJoined, engine
      ensures Valid() && engine.taken == old(engine.taken)
      ensures var (s, polled) := DoPoll(engine.world, old(engine.Abs()));
              engine.Abs() == if polled.Err? then DoFail(engine.world, s, polled.error) else s
    {
      var polled := engine.PollTransport();
      if polled.Err? {
        engine.FailAndCleanup(polled.error);
        StopServerAndJoin();
      }
    }

    method SynchronizeSupervisor(flagged: bool, seen: Seen)
      requires Valid()
      modifies this`serverStopped, this`supervisorJoined, engine
      ensures Valid() && engine.taken == old(engine.taken)
      ensures engine.Abs() == Synchronize(engine.world, old(engine.Abs()), flagged, seen)
      ensures flagged && old(engine.state) != Idle ==> serverStopped && supervisorJoined
    {
      if !flagged || engine.state == Idle {
        return;
      }
      if seen.requested {
        engine.CancelSession("external");
      } else {
        engine.FailAndCleanup(Cause(seen));
      }
      StopServerAndJoin();
    }

    /** Polls, notices a set cancellation flag, and hands over every event not handed over before, followed by the part
        of the OpenOCD log that is new. */
    method TakeEvents(flagged: bool, seen: Seen, log: string) returns (events: seq<Event>)
      requires Valid()
      requires reported <= log
      modifies this, engine
      ensures Valid()
      ensures engine.Abs() == Serve(engine.world, old(engine.Abs()), Collect(flagged, seen))
      ensures engine.events == [] && pendingEvents == [] && old(engine.taken) <= engine.taken
      ensures events == old(pendingEvents) + engine.taken[|old(engine.taken)|..]
                        + NewLog(engine.generation, old(reported), log)
      ensures reported == log
    {
      SynchronizeTransport();
      SynchronizeSupervisor(flagged, seen);
      var own := engine.TakeEvents();
      events := pendingEvents + own;
      pendingEvents := [];
      assert engine.taken[|old(engine.taken)|..] == own;
      if openocdLogOffset < |log| {
        events := events + [LogLine(engine.generation, "openocd", log[openocdLogOffset..])];
      }
      openocdLogOffset := |log|;
      reported := log;
    }

    method StopOwned(server: Result<()>) returns (r: Outcome)
      requires Valid()
      modifies this`serverStopped, this`supervisorJoined, engine
      ensures Valid() && engine.Abs() == Serve(engine.world, old(engine.Abs()), Quit)
      ensures serverStopped && supervisorJoined
      ensures r.Ok? <==> DoStop(engine.world, old(engine.Abs())).1.Ok? && server.Ok?
    {
      var gdb := engine.StopSession();
      StopServerAndJoin();
      r := if gdb.Err? then gdb else if server.Err? then Err(server.error) else Ok(None);
    }

    method CancelOwned(operation: string)
      requires Valid()
      modifies this`serverStopped, this`supervisorJoined, engine
      ensures Valid() && engine.Abs() == Serve(engine.world, old(engine.Abs()), Abort(operation))
      ensures serverStopped && supervisorJoined
    {
      engine.CancelSession(operation);
      StopServerAndJoin();
    }
  }
}
