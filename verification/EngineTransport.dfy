/** The engine over the transport: what its events show of the records that GDB delivers. */
module EngineTransport {
  import opened Common
  import opened MiSyntax
  import opened SessionModel
  import opened SessionRuns
  import opened Transport

  /** A call as the engine makes it, with what the surroundings do during the call. */
  datatype Ask =
    | AskCommand(command: MiCommand, wait: bool, first: Round, writable: bool, rounds: seq<Round>)
    | AskStop(rounds: seq<Round>)
    | AskPoll(arrived: nat, hungUp: bool)
    | AskShutdown(writable: bool, reaped: Result<()>)

  predicate Fits(ask: Ask, call: Call) {
    match ask
    case AskCommand(command, wait, _, _, _) => call.CommandCall? && call.command == command && call.wait == wait
    case AskStop(_) => call.WaitCall?
    case AskPoll(_, _) => call.PollCall?
    case AskShutdown(_, _) => call.ShutdownCall?
  }

  /** The records that a call hands to the engine. */
  function Handed(call: Call): Result<seq<MiRecord>> {
    match call
    case CommandCall(_, _, reply) => if reply.Ok? then Ok(reply.value.records) else Err(reply.error)
    case WaitCall(batch) => batch
    case PollCall(batch) => batch
    case ShutdownCall(_) => Ok([])
  }

  /** The call has read what GDB delivered from `a` to `b`, and handed on all of it if it succeeded. */
  predicate ServedAt(call: Call, inbox: seq<Result<MiRecord>>, a: nat, b: nat) {
    && a <= b <= |inbox|
    && (Handed(call).Ok? ==> AllUsable(inbox[a..b]) && Handed(call).value == Records(inbox[a..b]))
  }

  /** The calls have read GDB's output one after the other, up to `at` after each. */
  predicate Served(calls: seq<Call>, inbox: seq<Result<MiRecord>>, at: seq<nat>) {
    |at| == |calls| + 1 && at[0] == 0 && forall k :: 0 <= k < |calls| ==> ServedAt(calls[k], inbox, at[k], at[k + 1])
  }

  /** Any calls on a fresh process are served like this. */
  method Replay(p: GdbMiProcess, asks: seq<Ask>) returns (calls: seq<Call>, ghost at: seq<nat>)
    requires p.Valid() && p.next == 0
    modifies p
    ensures p.Valid() && |calls| == |asks| && forall k :: 0 <= k < |asks| ==> Fits(asks[k], calls[k])
    ensures Served(calls, p.inbox, at) && at[|calls|] == p.next
  {
    calls, at := [], [0];
    for i := 0 to |asks|
      invariant p.Valid() && |calls| == i && forall k :: 0 <= k < i ==> Fits(asks[k], calls[k])
      invariant Served(calls, p.inbox, at) && at[i] == p.next
    {
      var call := Make(p, asks[i]);
      ghost var before := calls;
      calls, at := calls + [call], at + [p.next];
      assert forall k :: 0 <= k < i ==> calls[k] == before[k];
    }
  }

  method Make(p: GdbMiProcess, ask: Ask) returns (call: Call)
    requires p.Valid()
    modifies p
    ensures p.Valid() && Fits(ask, call) && ServedAt(call, p.inbox, old(p.next), p.next)
  {
    match ask {
      case AskCommand(command, wait, first, writable, rounds) =>
        var reply := p.Command(CommandText(command), wait, first, writable, rounds);
        call := CommandCall(command, wait, reply);
      case AskStop(rounds) =>
        var batch := p.WaitForStop(rounds);
        call := WaitCall(batch);
      case AskPoll(arrived, hungUp) =>
        var batch := p.PollRecords(arrived, hungUp);
        call := PollCall(batch);
      case AskShutdown(writable, reaped) =>
        var outcome := p.Shutdown(writable, reaped);
        call := ShutdownCall(outcome);
    }
  }

  // ---- The engine's calls ----

  function CallsOf(trace: seq<Entry>): seq<Call> {
    if trace == [] then []
    else
      var last := trace[|trace| - 1];
      CallsOf(trace[..|trace| - 1]) + if last.Ca? then [last.call] else []
  }

  predicate NoneFailed(calls: seq<Call>) {
    forall k :: 0 <= k < |calls| ==> Handed(calls[k]).Ok?
  }

  /** What the calls that succeeded have handed on, in order. */
  function AllHanded(calls: seq<Call>): seq<MiRecord> {
    if calls == [] then []
    else
      var last := Handed(calls[|calls| - 1]);
      AllHanded(calls[..|calls| - 1]) + if last.Ok? then last.value else []
  }

  lemma BatchIsHanded(entry: Entry)
    ensures Batch(entry) == if entry.Ca? && Handed(entry.call).Ok? then Handed(entry.call).value else []
  {}

  lemma {:induction false} OneMoreHanded(calls: seq<Call>, call: Call)
    ensures AllHanded(calls + [call]) == AllHanded(calls) + if Handed(call).Ok? then Handed(call).value else []
  {
    assert (calls + [call])[..|calls|] == calls;
  }

  lemma {:induction false} FedIsHanded(trace: seq<Entry>)
    ensures Fed(trace) == AllHanded(CallsOf(trace))
  {
    if trace != [] {
      hide AllHanded;
      hide Batch;
      hide Handed;
      var n := |trace| - 1;
      FedIsHanded(trace[..n]);
      BatchIsHanded(trace[n]);
      if trace[n].Ca? {
        OneMoreHanded(CallsOf(trace[..n]), trace[n].call);
      } else {
        AppendEmpty(Fed(trace[..n]));
        AppendEmpty(CallsOf(trace[..n]));
      }
    } else {
      hide Batch;
    }
  }

  /** Without a failed call nothing is lost: what was handed on is a prefix of GDB's records. */
  lemma {:induction false} HandedIsPrefix(calls: seq<Call>, inbox: seq<Result<MiRecord>>, at: seq<nat>)
    requires Served(calls, inbox, at) && NoneFailed(calls)
    ensures var n := at[|calls|];
            n <= |inbox| && AllUsable(inbox[..n]) && AllHanded(calls) == Records(inbox[..n])
  {
    if calls != [] {
      var n := |calls| - 1;
      var init := calls[..n];
      forall k | 0 <= k < n ensures ServedAt(init[k], inbox, at[..n + 1][k], at[..n + 1][k + 1]) {
        assert init[k] == calls[k];
      }
      forall k | 0 <= k < n ensures Handed(init[k]).Ok? {
        assert init[k] == calls[k];
      }
      HandedIsPrefix(init, inbox, at[..n + 1]);
      assert ServedAt(calls[n], inbox, at[n], at[n + 1]);
      RecordsAppend(inbox, 0, at[n], at[n + 1]);
    }
  }

  /** Over a process that serves its calls, a run of the engine shows the texts of what the calls have handed on, each
      once and in order; and as long as no call has failed these are the texts of a prefix of GDB's records: of all that
      the process has read. */
  lemma {:induction false} ShownIsDelivered(w: World, ops: seq<Op>, inbox: seq<Result<MiRecord>>, at: seq<nat>)
    requires Served(CallsOf(DoAll(w, New(), ops).trace), inbox, at)
    ensures var s := DoAll(w, New(), ops);
            var calls, shown := CallsOf(s.trace), SumOf(s, Some(Idle)).shown;
            && shown == RecordTexts(AllHanded(calls))
            && (NoneFailed(calls) ==>
                  var n := at[|calls|];
                  n <= |inbox| && AllUsable(inbox[..n]) && shown == RecordTexts(Records(inbox[..n])))
  {
    hide RecordTexts;
    hide Sum;
    hide DoAll;
    hide Fed;
    hide CallsOf;
    hide AllHanded;
    var s := DoAll(w, New(), ops);
    EngineRuns(w, 0, ops);
    AnsweredIsFed(s.trace, Some(Idle));
    FedIsHanded(s.trace);
    if NoneFailed(CallsOf(s.trace)) {
      HandedIsPrefix(CallsOf(s.trace), inbox, at);
    }
  }
}
