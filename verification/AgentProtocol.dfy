/** `handle_line`, `execute` (the session slot), `request_id_key` and `recover_request_identity` of `agent.rs`: one
    answer for every line, and no request executed twice. */
module AgentProtocol {
  import opened Common
  import AgentFraming

  // ---- Requests ----

  /** A JSON number: an unsigned integer, a negative integer by its magnitude, or anything else. */
  datatype Num = Pos(n: nat) | Neg(m: nat) | Float

  datatype Json =
    | Null | Bool(b: bool) | Number(num: Num) | Str(s: string)
    | Array(items: seq<Json>) | Object(fields: map<string, Json>)

  datatype Request = Request(version: nat, kind: string, id: Json, operation: string, payload: Json)

  const U32_MAX: nat := 0xFFFF_FFFF
  const I64_MAX: nat := 0x7FFF_FFFF_FFFF_FFFF

  function FromParts(version: Json, kind: Json, id: Json, operation: Json, payload: Json): Option<Request> {
    if version.Number? && version.num.Pos? && version.num.n <= U32_MAX && kind.Str? && operation.Str? then
      Some(Request(version.num.n, kind.s, id, operation.s, payload))
    else None
  }

  const FIELDS := {"schema_version", "kind", "id", "operation", "payload"}

  /** Deserialisation of a request: an object with exactly the five fields, or the five values as an array. */
  function ParseRequest(v: Json): Option<Request> {
    match v
    case Object(f) =>
      if f.Keys == FIELDS then
        FromParts(f["schema_version"], f["kind"], f["id"], f["operation"], f["payload"])
      else None
    case Array(xs) => if |xs| == 5 then FromParts(xs[0], xs[1], xs[2], xs[3], xs[4]) else None
    case _ => None
  }

  predicate ValidId(id: Json) {
    id.Str? || (id.Number? && !id.num.Float?)
  }

  /** `request_id_key`: strings, numbers that fit a signed word and larger ones are kept apart by a prefix. */
  function IdKey(id: Json): (key: Option<string>)
    ensures key.Some? <==> ValidId(id)
  {
    match id
    case Str(s) => Some(['s', ':'] + s)
    case Number(Pos(n)) => Some((if n <= I64_MAX then ['i', ':'] else ['u', ':']) + Decimal(n))
    case Number(Neg(m)) => Some(['i', ':', '-'] + Decimal(m))
    case _ => None
  }

  function FieldString(f: map<string, Json>, name: string): string {
    if name in f && f[name].Str? then f[name].s else []
  }

  /** `recover_request_identity`: an object with a valid id and a non-empty operation can still be answered. */
  function Recover(v: Json): Option<(Json, string)> {
    if v.Object? && "id" in v.fields && ValidId(v.fields["id"]) && FieldString(v.fields, "operation") != [] then
      Some((v.fields["id"], FieldString(v.fields, "operation")))
    else None
  }

  predicate Known(operation: string) {
    operation == "session.start" || operation == "session.stop" || operation == "target.halt"
    || operation == "target.continue" || operation == "target.reset" || operation == "target.step"
    || operation == "target.next" || operation == "breakpoint.insert" || operation == "breakpoint.remove"
    || operation == "stack.list" || operation == "variables.list" || operation == "registers.read"
    || operation == "memory.read" || operation == "firmware.load"
  }

  // ---- The agent ----

  datatype Message =
    | Response(id: Json, operation: string, failure: Option<Failure>)
    | ProtocolError(code: string)
    | Event(name: string)

  predicate IsAnswer(m: Message) {
    m.Response? || m.ProtocolError?
  }

  /** What the debug session is asked to do. */
  datatype Call =
    | Launch(serial: string) | Stop | Operate(operation: string, payload: Json) | Load(authorization: string)

  /** A call made for a request, and whether it succeeded. */
  datatype Execution = Execution(id: Json, call: Call, ok: bool)

  datatype Agent = Agent(seen: set<string>, active: bool, calls: seq<Execution>, output: seq<Message>)

  /** JSON parsing, and the payloads of the operations that have one. */
  datatype Codec = Codec(
    parse: string -> Option<Json>,
    start: Json -> Option<string>,
    load: Json -> Option<(string, string)>,
    accepts: (string, Json) -> bool)

  /** What the debug session does when it is called: the events it publishes and its failure. */
  datatype Reply = Reply(events: seq<string>, failure: Option<Failure>)

  function CommandError(name: string): Option<Failure> {
    Some(Failure(Command, Other(name)))
  }

  function Events(names: seq<string>): (r: seq<Message>)
    ensures |r| == |names| && forall i :: 0 <= i < |names| ==> r[i] == Event(names[i])
  {
    seq(|names|, i requires 0 <= i < |names| => Event(names[i]))
  }

  /** An operation that takes no payload must be given an empty object. */
  predicate PayloadOk(codec: Codec, operation: string, payload: Json) {
    if operation == "target.halt" || operation == "target.continue" || operation == "target.step"
       || operation == "target.next" then payload == Object(map[])
    else codec.accepts(operation, payload)
  }

  /** A call to the debug session; only starting and stopping publish events right away. */
  function Ask(a: Agent, id: Json, call: Call, events: seq<string>, reply: Reply): (Agent, Option<Failure>) {
    (a.(calls := a.calls + [Execution(id, call, reply.failure.None?)], output := a.output + Events(events)),
     reply.failure)
  }

  function Execute(a: Agent, r: Request, codec: Codec, reply: Reply): (Agent, Option<Failure>) {
    if r.operation == "session.start" then
      if a.active then (a, CommandError("INVALID_SESSION_STATE"))
      else
        match codec.start(r.payload)
        case None => (a, CommandError("PAYLOAD_INVALID"))
        case Some(serial) =>
          if serial == [] then (a, CommandError("PROBE_SERIAL_INVALID"))
          else
            var (b, failure) := Ask(a, r.id, Launch(serial), reply.events, reply);
            (b.(active := failure.None?), failure)
    else if r.operation == "session.stop" then
      if r.payload != Object(map[]) then (a, CommandError("PAYLOAD_INVALID"))
      else if !a.active then (a, None)
      else
        var (b, failure) := Ask(a, r.id, Stop, if reply.failure.None? then reply.events else [], reply);
        (b.(active := false), failure)
    else if r.operation == "firmware.load" then
      match codec.load(r.payload)
      case None => (a, CommandError("PAYLOAD_INVALID"))
      case Some((operation, serial)) =>
        if !a.active then (a, CommandError("INVALID_SESSION_STATE"))
        else if operation != "firmware.load" then (a, Some(Failure(Authorization, AUTHORIZATION_REJECTED)))
        else Ask(a, r.id, Load("firmware.load:" + serial), [], reply)
    else if !PayloadOk(codec, r.operation, r.payload) then (a, CommandError("PAYLOAD_INVALID"))
    else if !a.active then (a, CommandError("INVALID_SESSION_STATE"))
    else Ask(a, r.id, Operate(r.operation, r.payload), [], reply)
  }

  function Answer(a: Agent, m: Message): Agent {
    a.(output := a.output + [m])
  }

  function HandleRequest(a: Agent, r: Request, codec: Codec, reply: Reply): Agent {
    if r.version != 1 || r.kind != "request" || !ValidId(r.id) then
      Answer(a, Response(r.id, r.operation, CommandError("REQUEST_INVALID")))
    else
      var key := IdKey(r.id).value;
      if key in a.seen then Answer(a, Response(r.id, r.operation, CommandError("REQUEST_ID_DUPLICATE")))
      else
        var b := a.(seen := a.seen + {key});
        if !Known(r.operation) then Answer(b, Response(r.id, r.operation, CommandError("OPERATION_UNKNOWN")))
        else
          var (c, failure) := Execute(b, r, codec, reply);
          Answer(c, Response(r.id, r.operation, failure))
  }

  function HandleLine(a: Agent, line: string, codec: Codec, reply: Reply): Agent {
    if |line| > AgentFraming.MAX_REQUEST_BYTES then Answer(a, ProtocolError("REQUEST_TOO_LARGE"))
    else
      match codec.parse(line)
      case None => Answer(a, ProtocolError("REQUEST_INVALID"))
      case Some(v) =>
        match ParseRequest(v)
        case Some(r) => HandleRequest(a, r, codec, reply)
        case None =>
          match Recover(v)
          case Some((id, operation)) => Answer(a, Response(id, operation, CommandError("REQUEST_INVALID")))
          case None => Answer(a, ProtocolError("REQUEST_INVALID"))
  }

  // ---- The code ----

  class AgentServer {
    var seen: set<string>
    var active: bool
    ghost var calls: seq<Execution>
    var output: seq<Message>

    constructor ()
      ensures State() == Agent({}, false, [], [])
    {
      seen, active, output := {}, false, [];
      calls := [];
    }

    ghost function State(): Agent
      reads this
    {
      Agent(seen, active, calls, output)
    }

    method Emit(m: Message)
      modifies this
      ensures State() == Answer(old(State()), m)
    {
      output := output + [m];
    }

    method ExecuteRequest(r: Request, codec: Codec, reply: Reply) returns (failure: Option<Failure>)
      modifies this
      ensures (State(), failure) == Execute(old(State()), r, codec, reply)
    {
      if r.operation == "session.start" {
        if active {
          return CommandError("INVALID_SESSION_STATE");
        }
        var serial := codec.start(r.payload);
        if serial.None? {
          return CommandError("PAYLOAD_INVALID");
        }
        if serial.value == [] {
          return CommandError("PROBE_SERIAL_INVALID");
        }
        calls := calls + [Execution(r.id, Launch(serial.value), reply.failure.None?)];
        output := output + Events(reply.events);
        active := reply.failure.None?;
        return reply.failure;
      }
      if r.operation == "session.stop" {
        if r.payload != Object(map[]) {
          return CommandError("PAYLOAD_INVALID");
        }
        if active {
          active := false;
          calls := calls + [Execution(r.id, Stop, reply.failure.None?)];
          if reply.failure.Some? {
            assert output + Events([]) == output;
            return reply.failure;
          }
          output := output + Events(reply.events);
        }
        return None;
      }
      if r.operation == "firmware.load" {
        var payload := codec.load(r.payload);
        if payload.None? {
          return CommandError("PAYLOAD_INVALID");
        }
        if !active {
          return CommandError("INVALID_SESSION_STATE");
        }
        if payload.value.0 != "firmware.load" {
          return Some(Failure(Authorization, AUTHORIZATION_REJECTED));
        }
        calls := calls + [Execution(r.id, Load("firmware.load:" + payload.value.1), reply.failure.None?)];
        assert output + Events([]) == output;
        return reply.failure;
      }
      if !PayloadOk(codec, r.operation, r.payload) {
        return CommandError("PAYLOAD_INVALID");
      }
      if !active {
        return CommandError("INVALID_SESSION_STATE");
      }
      calls := calls + [Execution(r.id, Operate(r.operation, r.payload), reply.failure.None?)];
      assert output + Events([]) == output;
      return reply.failure;
    }

    method Handle(line: string, codec: Codec, reply: Reply)
      modifies this
      ensures State() == HandleLine(old(State()), line, codec, reply)
    {
      hide Execute;
      hide Known;
      if |line| > AgentFraming.MAX_REQUEST_BYTES {
        Emit(ProtocolError("REQUEST_TOO_LARGE"));
        return;
      }
      var value := codec.parse(line);
      if value.None? {
        Emit(ProtocolError("REQUEST_INVALID"));
        return;
      }
      var request := ParseRequest(value.value);
      if request.None? {
        var identity := Recover(value.value);
        if identity.Some? {
          Emit(Response(identity.value.0, identity.value.1, CommandError("REQUEST_INVALID")));
        } else {
          Emit(ProtocolError("REQUEST_INVALID"));
        }
        return;
      }
      var r := request.value;
      if r.version != 1 || r.kind != "request" || !ValidId(r.id) {
        Emit(Response(r.id, r.operation, CommandError("REQUEST_INVALID")));
        return;
      }
      var key := IdKey(r.id).value;
      if key in seen {
        Emit(Response(r.id, r.operation, CommandError("REQUEST_ID_DUPLICATE")));
        return;
      }
      seen := seen + {key};
      if !Known(r.operation) {
        Emit(Response(r.id, r.operation, CommandError("OPERATION_UNKNOWN")));
        return;
      }
      var failure := ExecuteRequest(r, codec, reply);
      Emit(Response(r.id, r.operation, failure));
    }
  }
}
