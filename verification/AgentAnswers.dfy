/** What each request makes the agent do, from its line to its answer, and which ids count as used. */
module AgentAnswers {
  import opened Common
  import opened AgentProtocol
  import opened AgentRuns
  import F = AgentFraming

  /** An object of the five fields of a request, or their values in order. */
  ghost predicate Fields(v: Json, version: nat, kind: string, id: Json, operation: string, payload: Json) {
    || v == Object(map["schema_version" := Number(Pos(version)), "kind" := Str(kind), "id" := id,
                       "operation" := Str(operation), "payload" := payload])
    || v == Array([Number(Pos(version)), Str(kind), id, Str(operation), payload])
  }

  /** The line is a request of that id, operation and payload. */
  ghost predicate Carries(line: string, codec: Codec, id: Json, operation: string, payload: Json) {
    && |line| <= 0x10_0000 && (id.Str? || (id.Number? && !id.num.Float?))
    && codec.parse(line).Some? && Fields(codec.parse(line).value, 1, "request", id, operation, payload)
  }

  /** The operations that take no payload, and those whose payload is checked by its own type. */
  const BARE := ["target.halt", "target.continue", "target.step", "target.next"]
  const LADEN := ["target.reset", "breakpoint.insert", "breakpoint.remove", "stack.list", "variables.list",
                  "registers.read", "memory.read"]

  /** What a request asks of the debug session; firmware only under an authorisation for `firmware.load`. */
  ghost predicate Asks(operation: string, payload: Json, codec: Codec, call: Call) {
    || (operation == "session.start" && call.Launch? && codec.start(payload) == Some(call.serial) && call.serial != [])
    || (operation == "session.stop" && payload == Object(map[]) && call.Stop?)
    || (operation == "firmware.load" && call.Load?
        && exists serial :: codec.load(payload) == Some(("firmware.load", serial))
                            && call.authorization == "firmware.load:" + serial)
    || (operation in BARE && payload == Object(map[]) && call == Operate(operation, payload))
    || (operation in LADEN && codec.accepts(operation, payload) && call == Operate(operation, payload))
  }

  function CalledOnce(calls: seq<Execution>, id: Json, call: Call, ok: bool): seq<Execution> {
    calls + [Execution(id, call, ok)]
  }

  /** The agent's state after the line, and its one answer after the events. */
  ghost predicate Becomes(
    a: Agent, b: Agent, calls: seq<Execution>, active: bool, events: seq<string>, answer: Message)
  {
    b.calls == calls && b.active == active && b.output == a.output + Events(events) + [answer]
  }

  lemma {:induction false} CarriedIsRequest(line: string, codec: Codec, id: Json, operation: string, payload: Json)
    requires Carries(line, codec, id, operation, payload)
    ensures |line| <= F.MAX_REQUEST_BYTES && codec.parse(line).Some? && ValidId(id)
    ensures ParseRequest(codec.parse(line).value) == Some(Request(1, "request", id, operation, payload))
  {
    if codec.parse(line).value.Object? {
      assert codec.parse(line).value.fields.Keys == FIELDS;
    }
  }

  /** Nothing else is read as a request of this version. */
  lemma {:induction false} RequestIsCarried(line: string, codec: Codec, r: Request)
    requires |line| <= F.MAX_REQUEST_BYTES && codec.parse(line).Some?
    requires ParseRequest(codec.parse(line).value) == Some(r) && r.version == 1 && r.kind == "request" && ValidId(r.id)
    ensures Carries(line, codec, r.id, r.operation, r.payload)
  {
    var v := codec.parse(line).value;
    if v.Object? {
      var f := v.fields;
      assert f == map["schema_version" := f["schema_version"], "kind" := f["kind"], "id" := f["id"],
                      "operation" := f["operation"], "payload" := f["payload"]];
    } else {
      assert v.items == [v.items[0], v.items[1], v.items[2], v.items[3], v.items[4]];
    }
  }

  /** A request with a new id that asks something of the session, when there is one, or of no session when it starts
      one, has it done: the call is made once, for this id, and its failure is the answer's. */
  lemma {:induction false} RequestIsServed(
    a: Agent, line: string, codec: Codec, reply: Reply, id: Json, operation: string, payload: Json, call: Call)
    requires Carries(line, codec, id, operation, payload) && IdKey(id).value !in a.seen
    requires Asks(operation, payload, codec, call) && a.active == (operation != "session.start")
    ensures var b := HandleLine(a, line, codec, reply);
            var ok := reply.failure.None?;
            Becomes(a, b, CalledOnce(a.calls, id, call, ok),
                    if call.Launch? then ok else if call.Stop? then false else true,
                    if call.Launch? || (call.Stop? && ok) then reply.events else [],
                    Response(id, operation, reply.failure))
  {
    CarriedIsRequest(line, codec, id, operation, payload);
    hide IdKey;
    hide ParseRequest;
    hide FIELDS;
    var r := Request(1, "request", id, operation, payload);
    AskedIsKnown(operation, payload, codec, call);
    hide Known;
    var c := a.(seen := a.seen + {IdKey(id).value});
    Served(c, r, codec, reply, call);
    hide Execute;
    hide Asks;
  }

  lemma AskedIsKnown(operation: string, payload: Json, codec: Codec, call: Call)
    requires Asks(operation, payload, codec, call)
    ensures Known(operation)
  {}

  lemma {:induction false} Served(a: Agent, r: Request, codec: Codec, reply: Reply, call: Call)
    requires Asks(r.operation, r.payload, codec, call) && a.active == (r.operation != "session.start")
    ensures var (b, failure) := Execute(a, r, codec, reply);
            var ok := reply.failure.None?;
            && failure == reply.failure && b.calls == CalledOnce(a.calls, r.id, call, ok)
            && b.active == (if call.Launch? then ok else if call.Stop? then false else true)
            && b.output == a.output + Events(if call.Launch? || (call.Stop? && ok) then reply.events else [])
  {
    assert r.operation in BARE ==> PayloadOk(codec, r.operation, r.payload) == (r.payload == Object(map[]));
    assert r.operation in LADEN ==> PayloadOk(codec, r.operation, r.payload) == codec.accepts(r.operation, r.payload);
  }

  ghost predicate Accepted(operation: string, payload: Json, codec: Codec) {
    if operation in BARE || operation == "session.stop" then payload == Object(map[])
    else if operation == "session.start" then codec.start(payload).Some?
    else if operation == "firmware.load" then codec.load(payload).Some?
    else codec.accepts(operation, payload)
  }

  ghost predicate IsOperation(operation: string) {
    operation in BARE || operation in LADEN || operation in ["session.start", "session.stop", "firmware.load"]
  }

  /** The answer to a request that nothing is done for; stopping when there is no session is no failure. */
  ghost function Refusal(active: bool, operation: string, payload: Json, codec: Codec): Option<Failure> {
    if !IsOperation(operation) then CommandError("OPERATION_UNKNOWN")
    else if operation == "session.start" && active then CommandError("INVALID_SESSION_STATE")
    else if !Accepted(operation, payload, codec) then CommandError("PAYLOAD_INVALID")
    else if operation == "session.start" then CommandError("PROBE_SERIAL_INVALID")
    else if operation == "session.stop" then None
    else if !active then CommandError("INVALID_SESSION_STATE")
    else Some(Failure(Authorization, AUTHORIZATION_REJECTED))
  }

  /** A request whose id was used before is refused as a duplicate. One with a new id that asks nothing of the session,
      or asks it of a session that is not there, or starts a second one, is refused for its own reason. Either way
      nothing is called and the session stays as it is. */
  lemma {:induction false} RequestIsRefused(
    a: Agent, line: string, codec: Codec, reply: Reply, id: Json, operation: string, payload: Json)
    requires Carries(line, codec, id, operation, payload)
    requires IdKey(id).value in a.seen || a.active != (operation != "session.start")
             || forall call :: !Asks(operation, payload, codec, call)
    ensures var failure := if IdKey(id).value in a.seen then CommandError("REQUEST_ID_DUPLICATE")
                           else Refusal(a.active, operation, payload, codec);
            Becomes(a, HandleLine(a, line, codec, reply), a.calls, a.active, [], Response(id, operation, failure))
  {
    CarriedIsRequest(line, codec, id, operation, payload);
    hide IdKey;
    hide ParseRequest;
    hide FIELDS;
    assert a.output + Events([]) == a.output;
    if IdKey(id).value !in a.seen {
      var r := Request(1, "request", id, operation, payload);
      KnownIff(operation);
      if Known(operation) {
        Refuses(a.(seen := a.seen + {IdKey(id).value}), r, codec, reply);
      }
    }
    hide Execute;
    hide Asks;
    hide Known;
    hide IsOperation;
    hide Accepted;
  }

  lemma KnownIff(operation: string)
    ensures Known(operation) <==> IsOperation(operation)
  {}

  lemma {:induction false} Refuses(a: Agent, r: Request, codec: Codec, reply: Reply)
    requires Known(r.operation)
    requires a.active != (r.operation != "session.start") || forall call :: !Asks(r.operation, r.payload, codec, call)
    ensures Execute(a, r, codec, reply) == (a, Refusal(a.active, r.operation, r.payload, codec))
  {
    KnownIff(r.operation);
    if a.active == (r.operation != "session.start") {
      Offers(r, codec);
    }
    hide Asks;
    assert r.operation in BARE ==> PayloadOk(codec, r.operation, r.payload) == (r.payload == Object(map[]));
    assert r.operation in LADEN ==> PayloadOk(codec, r.operation, r.payload) == codec.accepts(r.operation, r.payload);
  }

  /** What could have been asked. */
  lemma {:induction false} Offers(r: Request, codec: Codec)
    requires forall call :: !Asks(r.operation, r.payload, codec, call)
    ensures r.operation == "session.start" && codec.start(r.payload).Some? ==> codec.start(r.payload).value == []
    ensures r.operation == "session.stop" ==> r.payload != Object(map[])
    ensures r.operation == "firmware.load" && codec.load(r.payload).Some? ==>
              codec.load(r.payload).value.0 != "firmware.load"
    ensures r.operation in BARE || r.operation in LADEN ==> !PayloadOk(codec, r.operation, r.payload)
  {
    var plain := Operate(r.operation, r.payload);
    assert !Asks(r.operation, r.payload, codec, plain) && !Asks(r.operation, r.payload, codec, Stop);
    if r.operation == "session.start" && codec.start(r.payload).Some? {
      assert !Asks(r.operation, r.payload, codec, Launch(codec.start(r.payload).value));
    }
    if r.operation == "firmware.load" && codec.load(r.payload).Some? {
      assert !Asks(r.operation, r.payload, codec, Load("firmware.load:" + codec.load(r.payload).value.1));
    }
  }

  // ---- Lines that carry no request ----

  /** The value has the fields of a request, of whatever version and kind. */
  ghost predicate Shaped(v: Json, id: Json, operation: string) {
    exists version, kind, payload :: version <= 0xFFFF_FFFF && Fields(v, version, kind, id, operation, payload)
  }

  /** An object that at least has an id and names an operation. */
  ghost predicate Recoverable(v: Json, id: Json, operation: string) {
    && v.Object? && "id" in v.fields && v.fields["id"] == id && (id.Str? || (id.Number? && !id.num.Float?))
    && "operation" in v.fields && v.fields["operation"] == Str(operation) && operation != []
  }

  lemma {:induction false} ShapedIff(v: Json, id: Json, operation: string)
    ensures Shaped(v, id, operation) <==>
            ParseRequest(v).Some? && ParseRequest(v).value.id == id && ParseRequest(v).value.operation == operation
  {
    var r := ParseRequest(v);
    if r.Some? && r.value.id == id && r.value.operation == operation {
      var version, kind, payload := r.value.version, r.value.kind, r.value.payload;
      if v.Object? {
        assert v.fields == map["schema_version" := Number(Pos(version)), "kind" := Str(kind), "id" := id,
                               "operation" := Str(operation), "payload" := payload];
      } else {
        assert v.items == [Number(Pos(version)), Str(kind), id, Str(operation), payload];
      }
      assert Fields(v, version, kind, id, operation, payload);
    }
    if version, kind, payload :| version <= 0xFFFF_FFFF && Fields(v, version, kind, id, operation, payload) {
      assert v.Object? ==> v.fields.Keys == FIELDS;
    }
  }

  /** A line that carries no request is answered to whoever can be made out, as an invalid request, and otherwise by a
      protocol error; nothing else happens. */
  lemma {:induction false} OtherLines(a: Agent, line: string, codec: Codec, reply: Reply, id: Json, operation: string)
    requires forall id, operation, payload :: !Carries(line, codec, id, operation, payload)
    ensures var b := HandleLine(a, line, codec, reply);
            var v := codec.parse(line);
            var invalid := CommandError("REQUEST_INVALID");
            if |line| > 0x10_0000 then b == Answer(a, ProtocolError("REQUEST_TOO_LARGE"))
            else if v.None? then b == Answer(a, ProtocolError("REQUEST_INVALID"))
            else
              && (Shaped(v.value, id, operation) || Recoverable(v.value, id, operation) ==>
                    b == Answer(a, Response(id, operation, invalid)))
              && ((forall i, o :: !Shaped(v.value, i, o) && !Recoverable(v.value, i, o)) ==>
                    b == Answer(a, ProtocolError("REQUEST_INVALID")))
  {
    var v := codec.parse(line);
    if |line| <= 0x10_0000 && v.Some? {
      ShapedIff(v.value, id, operation);
      var r := ParseRequest(v.value);
      if r.Some? {
        ShapedIff(v.value, r.value.id, r.value.operation);
        if r.value.version == 1 && r.value.kind == "request" && ValidId(r.value.id) {
          RequestIsCarried(line, codec, r.value);
        }
      } else if Recover(v.value).Some? {
        assert Recoverable(v.value, Recover(v.value).value.0, Recover(v.value).value.1);
      }
    }
    hide Shaped;
    hide Carries;
    hide Execute;
    hide Known;
    hide IdKey;
  }

  // ---- Which ids are used ----

  /** The line uses the id: it is a request that carries it, whatever becomes of it. */
  ghost predicate Uses(input: (F.InputLine, Reply), codec: Codec, id: Json) {
    input.0.Line? && exists operation, payload :: Carries(input.0.text, codec, id, operation, payload)
  }

  lemma {:induction false} LineUses(a: Agent, line: string, codec: Codec, reply: Reply, id: Json)
    requires ValidId(id)
    ensures IdKey(id).value in HandleLine(a, line, codec, reply).seen <==>
            IdKey(id).value in a.seen || exists operation, payload :: Carries(line, codec, id, operation, payload)
  {
    hide Execute;
    hide Known;
    hide IdKey;
    hide Carries;
    forall operation, payload | Carries(line, codec, id, operation, payload)
      ensures IdKey(id).value in HandleLine(a, line, codec, reply).seen
    {
      CarriedIsRequest(line, codec, id, operation, payload);
      hide ParseRequest;
      SeenStays(a, Request(1, "request", id, operation, payload), codec, reply);
    }
    var b := HandleLine(a, line, codec, reply);
    if b.seen != a.seen {
      var r := ParseRequest(codec.parse(line).value).value;
      hide ParseRequest;
      SeenStays(a, r, codec, reply);
      RequestIsCarried(line, codec, r);
      if IdKey(id) == IdKey(r.id) {
        KeyInjective(id, r.id);
      }
    }
  }

  lemma {:induction false} SeenStays(a: Agent, r: Request, codec: Codec, reply: Reply)
    ensures HandleRequest(a, r, codec, reply).seen ==
            if r.version == 1 && r.kind == "request" && ValidId(r.id) then a.seen + {IdKey(r.id).value} else a.seen
  {
    hide IdKey;
    hide Known;
    if Executed(a, r) {
      ExecuteShape(a.(seen := a.seen + {IdKey(r.id).value}), r, codec, reply);
    }
    hide Execute;
  }

  /** In any conversation an id counts as used exactly when some line so far was a request that carried it. */
  lemma {:induction false} UsedIff(inputs: seq<(F.InputLine, Reply)>, codec: Codec, id: Json)
    requires ValidId(id)
    ensures IdKey(id).value in Converse(Agent({}, false, [], []), inputs, codec).seen <==>
            exists i :: 0 <= i < |inputs| && Uses(inputs[i], codec, id)
    decreases |inputs|
  {
    hide HandleLine;
    hide IdKey;
    hide Carries;
    if inputs != [] {
      var n := |inputs| - 1;
      UsedIff(inputs[..n], codec, id);
      var a := Converse(Agent({}, false, [], []), inputs[..n], codec);
      if inputs[n].0.Line? {
        LineUses(a, inputs[n].0.text, codec, inputs[n].1, id);
      }
      assert forall i :: 0 <= i < n ==> inputs[..n][i] == inputs[i];
      if i :| 0 <= i < n && Uses(inputs[..n][i], codec, id) {
        assert Uses(inputs[i], codec, id);
      }
    }
  }
}
