/** What a whole conversation with the agent keeps. */
module AgentRuns {
  import opened Common
  import opened AgentProtocol
  import F = AgentFraming

  // ---- Request ids ----

  /** Two valid ids with one key are one id: a string is never taken for a number, nor a number for another. */
  lemma {:induction false} KeyInjective(a: Json, b: Json)
    requires ValidId(a) && ValidId(b) && IdKey(a) == IdKey(b)
    ensures a == b
  {
    var k := IdKey(a).value;
    assert IdKey(b) == Some(k);
    match a {
      case Str(s) => assert k[2..] == s && k[0] == 's';
      case Number(Pos(n)) => NumberKey(k, n);
      case Number(Neg(m)) => assert k[3..] == Decimal(m) && k[2] == '-';
    }
    match b {
      case Str(s) => assert k[2..] == s && k[0] == 's';
      case Number(Pos(n)) => NumberKey(k, n);
      case Number(Neg(m)) => assert k[3..] == Decimal(m) && k[2] == '-';
    }
    SameNumber(a, b);
  }

  lemma NumberKey(k: string, n: nat)
    requires k == (if n <= I64_MAX then ['i', ':'] else ['u', ':']) + Decimal(n)
    ensures |k| > 2 && k[2..] == Decimal(n) && IsDigit(k[2]) && k[0] != 's'
  {}

  lemma {:induction false} SameNumber(a: Json, b: Json)
    ensures a.Number? && b.Number? && a.num.Pos? && b.num.Pos? && Decimal(a.num.n) == Decimal(b.num.n) ==> a == b
    ensures a.Number? && b.Number? && a.num.Neg? && b.num.Neg? && Decimal(a.num.m) == Decimal(b.num.m) ==> a == b
  {
    if a.Number? && b.Number? && a.num.Pos? && b.num.Pos? && Decimal(a.num.n) == Decimal(b.num.n) {
      DecimalInjective(a.num.n, b.num.n);
    }
    if a.Number? && b.Number? && a.num.Neg? && b.num.Neg? && Decimal(a.num.m) == Decimal(b.num.m) {
      DecimalInjective(a.num.m, b.num.m);
    }
  }

  // ---- One line ----

  /** The output grows by some events and then exactly one answer. */
  ghost predicate Answered(before: Agent, after: Agent, m: Message) {
    && IsAnswer(m)
    && exists events: seq<string> :: after.output == before.output + Events(events) + [m]
  }

  /** Whom a line's answer is addressed to: the request it can be read as, or what can be recovered of one. */
  function Addressee(line: string, codec: Codec): Option<(Json, string)> {
    if |line| > F.MAX_REQUEST_BYTES then None
    else
      match codec.parse(line)
      case None => None
      case Some(v) =>
        match ParseRequest(v)
        case Some(r) => Some((r.id, r.operation))
        case None => Recover(v)
  }

  /** What one request adds to the calls: nothing, or one call made for its own id. */
  predicate OneCall(before: seq<Execution>, after: seq<Execution>, id: Json, ok: bool) {
    after == before ||
    (|after| == |before| + 1 && before <= after && after[|before|].id == id && (ok ==> after[|before|].ok))
  }

  lemma {:induction false} ExecuteShape(a: Agent, r: Request, codec: Codec, reply: Reply)
    ensures var (b, failure) := Execute(a, r, codec, reply);
            && b.seen == a.seen && OneCall(a.calls, b.calls, r.id, failure.None?)
            && exists events: seq<string> :: b.output == a.output + Events(events)
  {
    var (b, failure) := Execute(a, r, codec, reply);
    if b.calls == a.calls {
      assert Events([]) == [];
      assert b.output == a.output + Events([]);
    } else {
      var e := b.calls[|a.calls|];
      assert b.calls == a.calls + [e];
    }
  }

  /** Every line is answered by exactly one response or protocol error, written after everything else the line causes.
      It is a response, to the right request, exactly when the line has an addressee; and a success only if what was
      asked of the session for it succeeded. */
  lemma {:induction false} EveryLineIsAnswered(a: Agent, line: string, codec: Codec, reply: Reply)
    ensures var b := HandleLine(a, line, codec, reply);
            exists m ::
              && Answered(a, b, m)
              && (m.Response? <==> Addressee(line, codec).Some?)
              && (m.Response? ==> (m.id, m.operation) == Addressee(line, codec).value)
              && (m.Response? ==> OneCall(a.calls, b.calls, m.id, m.failure.None?))
              && (m.ProtocolError? ==> b.calls == a.calls)
  {
    var b := HandleLine(a, line, codec, reply);
    var m := b.output[|b.output| - 1];
    assert Events([]) == [];
    if b.output == a.output + [m] {
      assert b.output == a.output + Events([]) + [m];
      assert Answered(a, b, m);
    }
    if Addressee(line, codec).Some? && ParseRequest(codec.parse(line).value).Some? {
      RequestIsAnswered(a, ParseRequest(codec.parse(line).value).value, codec, reply);
    }
  }

  lemma {:induction false} RequestIsAnswered(a: Agent, r: Request, codec: Codec, reply: Reply)
    ensures var b := HandleRequest(a, r, codec, reply);
            && b.output != []
            && var m := b.output[|b.output| - 1];
               && Answered(a, b, m) && m.Response? && m.id == r.id && m.operation == r.operation
               && OneCall(a.calls, b.calls, m.id, m.failure.None?)
  {
    hide Known;
    hide IdKey;
    var b := HandleRequest(a, r, codec, reply);
    var m := b.output[|b.output| - 1];
    assert Events([]) == [];
    if b.output == a.output + [m] {
      assert b.output == a.output + Events([]) + [m];
    }
    if Executed(a, r) {
      var c := a.(seen := a.seen + {IdKey(r.id).value});
      ExecuteShape(c, r, codec, reply);
      hide Execute;
      var events: seq<string> :| Execute(c, r, codec, reply).0.output == a.output + Events(events);
      assert b.output == a.output + Events(events) + [m];
    }
  }

  /** The request is passed on to `execute`. */
  predicate Executed(a: Agent, r: Request) {
    r.version == 1 && r.kind == "request" && ValidId(r.id) && IdKey(r.id).value !in a.seen && Known(r.operation)
  }

  // ---- A conversation ----

  /** Everything that reaches the protocol up to the end of the input, with the session's reply to each. */
  function Converse(a: Agent, inputs: seq<(F.InputLine, Reply)>, codec: Codec): Agent
    decreases |inputs|
  {
    if inputs == [] then a
    else
      var b := Converse(a, inputs[..|inputs| - 1], codec);
      var (line, reply) := inputs[|inputs| - 1];
      match line
      case Line(text) => HandleLine(b, text, codec, reply)
      case TooLarge => Answer(b, ProtocolError("REQUEST_TOO_LARGE"))
      case Eof => b
  }

  function Answers(output: seq<Message>): nat {
    if output == [] then 0
    else Answers(output[..|output| - 1]) + (if IsAnswer(output[|output| - 1]) then 1 else 0)
  }

  lemma {:induction false} AnswersOfEvents(output: seq<Message>, names: seq<string>)
    ensures Answers(output + Events(names)) == Answers(output)
    decreases |names|
  {
    if names == [] {
      assert output + Events(names) == output;
    } else {
      var all := output + Events(names);
      AnswersOfEvents(output, names[..|names| - 1]);
      assert all[..|all| - 1] == output + Events(names[..|names| - 1]);
    }
  }

  lemma {:induction false} AnsweredCounts(before: Agent, after: Agent, m: Message)
    requires Answered(before, after, m)
    ensures Answers(after.output) == Answers(before.output) + 1
  {
    var events: seq<string> :| after.output == before.output + Events(events) + [m];
    AnswersOfEvents(before.output, events);
    assert after.output[..|after.output| - 1] == before.output + Events(events);
  }

  function Requests(inputs: seq<(F.InputLine, Reply)>): nat {
    if inputs == [] then 0
    else Requests(inputs[..|inputs| - 1]) + (if inputs[|inputs| - 1].0.Eof? then 0 else 1)
  }

  /** As many answers as lines, whatever the lines are. */
  lemma {:induction false} AnswersMatchLines(inputs: seq<(F.InputLine, Reply)>, codec: Codec)
    ensures Answers(Converse(Agent({}, false, [], []), inputs, codec).output) == Requests(inputs)
    decreases |inputs|
  {
    if inputs != [] {
      var n := |inputs| - 1;
      AnswersMatchLines(inputs[..n], codec);
      var a := Converse(Agent({}, false, [], []), inputs[..n], codec);
      hide HandleLine;
      hide Answers;
      match inputs[n].0 {
        case Line(text) => LineCounts(a, text, codec, inputs[n].1);
        case TooLarge => AnswerCounts(a, ProtocolError("REQUEST_TOO_LARGE"));
        case Eof =>
      }
    }
  }

  lemma {:induction false} LineCounts(a: Agent, line: string, codec: Codec, reply: Reply)
    ensures Answers(HandleLine(a, line, codec, reply).output) == Answers(a.output) + 1
  {
    EveryLineIsAnswered(a, line, codec, reply);
    hide HandleLine;
    hide Answers;
    hide Addressee;
    var m :| Answered(a, HandleLine(a, line, codec, reply), m);
    AnsweredCounts(a, HandleLine(a, line, codec, reply), m);
  }

  lemma {:induction false} AnswerCounts(a: Agent, m: Message)
    requires IsAnswer(m)
    ensures Answers(Answer(a, m).output) == Answers(a.output) + 1
  {
    assert (a.output + [m])[..|a.output + [m]| - 1] == a.output;
  }

  lemma {:induction false} RequestsAll(inputs: seq<(F.InputLine, Reply)>)
    requires forall i :: 0 <= i < |inputs| ==> !inputs[i].0.Eof?
    ensures Requests(inputs) == |inputs|
    decreases |inputs|
  {
    if inputs != [] {
      RequestsAll(inputs[..|inputs| - 1]);
    }
  }

  /** What the reading thread hands over, each line with the session's reply to it. */
  function Paired(lines: seq<F.InputLine>, replies: seq<Reply>): (r: seq<(F.InputLine, Reply)>)
    requires |replies| == |lines|
    ensures |r| == |lines|
  {
    seq(|lines|, i requires 0 <= i < |lines| => (lines[i], replies[i]))
  }

  /** From the bytes on standard input to the answers: one for each line of the newline split, readable or not, and
      none for the end of the input. */
  lemma {:induction false} StreamIsAnswered(s: string, end: F.End, replies: seq<Reply>, codec: Codec)
    requires |replies| == |F.Lines(s, end)|
    ensures Answers(Converse(Agent({}, false, [], []), Paired(F.Lines(s, end), replies), codec).output) ==
            |F.Split(s).0| + (if F.Split(s).1 == [] || end.Broken? then 0 else 1)
  {
    var inputs := Paired(F.Lines(s, end), replies);
    F.FramingIsSplitting(s, end);
    hide F.Lines;
    hide F.Split;
    AnswersMatchLines(inputs, codec);
    RequestsAll(inputs[..|inputs| - 1]);
  }

  // ---- Never twice ----

  /** Every executed id is valid and remembered, and no two are the same. */
  predicate Once(a: Agent) {
    && (forall k :: 0 <= k < |a.calls| ==> ValidId(a.calls[k].id) && IdKey(a.calls[k].id).value in a.seen)
    && (forall j, k :: 0 <= j < k < |a.calls| ==> a.calls[j].id != a.calls[k].id)
  }

  lemma {:induction false} RequestKeepsOnce(a: Agent, r: Request, codec: Codec, reply: Reply)
    requires Once(a)
    ensures Once(HandleRequest(a, r, codec, reply))
  {
    hide IdKey;
    hide Known;
    if Executed(a, r) {
      var c := a.(seen := a.seen + {IdKey(r.id).value});
      ExecuteShape(c, r, codec, reply);
      hide Execute;
    }
  }

  lemma {:induction false} LineKeepsOnce(a: Agent, line: string, codec: Codec, reply: Reply)
    requires Once(a)
    ensures Once(HandleLine(a, line, codec, reply))
  {
    hide HandleRequest;
    hide IdKey;
    if |line| <= F.MAX_REQUEST_BYTES && codec.parse(line).Some? && ParseRequest(codec.parse(line).value).Some? {
      RequestKeepsOnce(a, ParseRequest(codec.parse(line).value).value, codec, reply);
    }
  }

  /** No id is executed twice in a conversation, whatever is sent. */
  lemma {:induction false} NeverTwice(inputs: seq<(F.InputLine, Reply)>, codec: Codec)
    ensures Once(Converse(Agent({}, false, [], []), inputs, codec))
    decreases |inputs|
  {
    hide Once;
    hide HandleLine;
    if inputs == [] {
      NothingYet();
    } else {
      var n := |inputs| - 1;
      NeverTwice(inputs[..n], codec);
      var a := Converse(Agent({}, false, [], []), inputs[..n], codec);
      match inputs[n].0 {
        case Line(text) => LineKeepsOnce(a, text, codec, inputs[n].1);
        case TooLarge => AnswerKeepsOnce(a, ProtocolError("REQUEST_TOO_LARGE"));
        case Eof =>
      }
    }
  }

  lemma NothingYet()
    ensures Once(Agent({}, false, [], []))
  {}

  lemma AnswerKeepsOnce(a: Agent, m: Message)
    requires Once(a)
    ensures Once(Answer(a, m))
  {}

  // ---- The session slot ----

  /** Sessions launched and not yet stopped. */
  function Live(calls: seq<Execution>): int {
    if calls == [] then 0
    else
      var last := calls[|calls| - 1];
      Live(calls[..|calls| - 1])
        + (if last.call.Launch? && last.ok then 1 else if last.call.Stop? then -1 else 0)
  }

  /** A session is launched only when there is none, and anything else is asked only of the one there is; firmware is
      loaded only under the authorisation for it. */
  predicate Proper(calls: seq<Execution>, k: nat)
    requires k < |calls|
  {
    && Live(calls[..k]) == (if calls[k].call.Launch? then 0 else 1)
    && (calls[k].call.Load? ==> "firmware.load:" <= calls[k].call.authorization)
  }

  predicate Slotted(a: Agent) {
    && Live(a.calls) == (if a.active then 1 else 0)
    && forall k :: 0 <= k < |a.calls| ==> Proper(a.calls, k)
  }

  lemma {:induction false} ProperStays(calls: seq<Execution>, e: Execution, k: nat)
    requires k < |calls| && Proper(calls, k)
    ensures Proper(calls + [e], k)
  {
    assert (calls + [e])[..k] == calls[..k];
  }

  lemma {:induction false} AskKeepsSlotted(a: Agent, e: Execution, active: bool, b: Agent)
    requires Slotted(a) && b.calls == a.calls + [e] && b.active == active
    requires e.call.Launch? ==> !a.active && active == e.ok
    requires e.call.Stop? ==> a.active && !active
    requires e.call.Operate? || e.call.Load? ==> a.active && active
    requires e.call.Load? ==> "firmware.load:" <= e.call.authorization
    ensures Slotted(b)
  {
    var n := |a.calls|;
    assert b.calls[..n] == a.calls;
    forall k | 0 <= k < n + 1 ensures Proper(b.calls, k) {
      if k < n {
        ProperStays(a.calls, e, k);
      }
    }
  }

  lemma {:induction false} ExecuteKeepsSlotted(a: Agent, r: Request, codec: Codec, reply: Reply)
    requires Slotted(a)
    ensures Slotted(Execute(a, r, codec, reply).0)
  {
    hide Slotted;
    var b := Execute(a, r, codec, reply).0;
    if b.calls == a.calls {
      SameSlot(a, b);
    } else {
      AskKeepsSlotted(a, b.calls[|a.calls|], b.active, b);
    }
  }

  lemma SameSlot(a: Agent, b: Agent)
    requires Slotted(a) && b.calls == a.calls && b.active == a.active
    ensures Slotted(b)
  {}

  lemma {:induction false} LineKeepsSlotted(a: Agent, line: string, codec: Codec, reply: Reply)
    requires Slotted(a)
    ensures Slotted(HandleLine(a, line, codec, reply))
  {
    hide Slotted;
    hide IdKey;
    hide Known;
    var b := HandleLine(a, line, codec, reply);
    if |line| <= F.MAX_REQUEST_BYTES && codec.parse(line).Some? && ParseRequest(codec.parse(line).value).Some?
       && Executed(a, ParseRequest(codec.parse(line).value).value) {
      var r := ParseRequest(codec.parse(line).value).value;
      var c := a.(seen := a.seen + {IdKey(r.id).value});
      SameSlot(a, c);
      ExecuteKeepsSlotted(c, r, codec, reply);
      hide Execute;
      SameSlot(Execute(c, r, codec, reply).0, b);
    } else {
      SameSlot(a, b);
    }
  }

  /** In any conversation there is at most one live session, and it is the one in the slot. */
  lemma {:induction false} OneSession(inputs: seq<(F.InputLine, Reply)>, codec: Codec)
    ensures Slotted(Converse(Agent({}, false, [], []), inputs, codec))
    decreases |inputs|
  {
    hide HandleLine;
    if inputs != [] {
      var n := |inputs| - 1;
      OneSession(inputs[..n], codec);
      var a := Converse(Agent({}, false, [], []), inputs[..n], codec);
      match inputs[n].0 {
        case Line(text) => LineKeepsSlotted(a, text, codec, inputs[n].1);
        case TooLarge => SameSlot(a, Answer(a, ProtocolError("REQUEST_TOO_LARGE")));
        case Eof =>
      }
    }
  }

  // ---- The loop of the agent ----

  /** Takes what the reading thread sends until the end of the input: one answer for each line, no id executed twice,
      and one session at a time. */
  method Serve(inputs: seq<(F.InputLine, Reply)>, codec: Codec) returns (server: AgentServer)
    requires forall i :: 0 <= i < |inputs| - 1 ==> !inputs[i].0.Eof?
    ensures fresh(server) && server.State() == Converse(Agent({}, false, [], []), inputs, codec)
    ensures Answers(server.output) == Requests(inputs)
    ensures Once(server.State()) && Slotted(server.State())
  {
    server := new AgentServer();
    var i := 0;
    while i < |inputs|
      invariant i <= |inputs|
      invariant server.State() == Converse(Agent({}, false, [], []), inputs[..i], codec)
    {
      var (line, reply) := inputs[i];
      i := i + 1;
      assert inputs[..i][..i - 1] == inputs[..i - 1];
      match line {
        case Line(text) => server.Handle(text, codec, reply);
        case TooLarge => server.Emit(ProtocolError("REQUEST_TOO_LARGE"));
        case Eof => break;
      }
    }
    assert inputs[..i] == inputs;
    AnswersMatchLines(inputs, codec);
    NeverTwice(inputs, codec);
    OneSession(inputs, codec);
  }
}
