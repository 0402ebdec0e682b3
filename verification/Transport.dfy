/** `GdbMiProcess` of `gdb_process.rs`: commands matched to results by token over a queue of records.
    Threads, pipes and clocks are choices of the environment: how much of the queue has arrived, whether the
    deadline has passed, whether cancellation is seen. */
module Transport {
  import opened Common
  import opened MiSyntax

  datatype Output = Output(
    resultClass: string, results: seq<MiResult>, records: seq<MiRecord>, stoppedAfterCommand: bool)

  /** A line written to GDB. */
  datatype Written = Written(token: nat, command: string)

  /** What one round of a waiting loop sees. `arrived` counts the queued items that have come in so far;
      `hungUp` says that no reader is left to send more. */
  datatype Round = Round(cancelled: bool, expired: bool, arrived: nat, hungUp: bool)

  const INTERRUPTION := Failure(Interrupted, INTERRUPTED)
  const EXITED := Failure(Debugger, GDB_EXITED)

  predicate IsDisconnect(r: MiRecord) {
    r.Notify? && (r.cls == "thread-group-exited" || r.cls == "connection-removed")
  }

  predicate IsStop(r: MiRecord) {
    r.Exec? && r.cls == "stopped"
  }

  predicate Answers(r: MiRecord, token: nat) {
    r.ResultRecord? && r.token == Some(token)
  }

  /** A queued item that a call hands on instead of failing. */
  predicate Usable(item: Result<MiRecord>) {
    item.Ok? && !IsDisconnect(item.value)
  }

  function ItemError(item: Result<MiRecord>): Failure
    requires !Usable(item)
  {
    if item.Err? then item.error else Failure(Debugger, GDB_TARGET_DISCONNECTED)
  }

  /** Only errors and the notices that the target is gone are unusable, and which failure each of them is. */
  lemma UnusableIff(item: Result<MiRecord>)
    ensures !Usable(item) <==>
            || item.Err?
            || (item.value.Notify? && item.value.cls in ["thread-group-exited", "connection-removed"])
    ensures !Usable(item) ==>
            ItemError(item) == if item.Err? then item.error else Failure(Debugger, GDB_TARGET_DISCONNECTED)
  {}

  predicate AllUsable(items: seq<Result<MiRecord>>) {
    forall i :: 0 <= i < |items| ==> Usable(items[i])
  }

  function Records(items: seq<Result<MiRecord>>): (records: seq<MiRecord>)
    requires AllUsable(items)
    ensures |records| == |items|
    ensures forall i :: 0 <= i < |items| ==> items[i] == Ok(records[i])
  {
    seq(|items|, i requires 0 <= i < |items| => items[i].value)
  }

  lemma {:induction false} RecordsAppend(items: seq<Result<MiRecord>>, a: nat, b: nat, c: nat)
    requires a <= b <= c <= |items| && AllUsable(items[a..b]) && AllUsable(items[b..c])
    ensures AllUsable(items[a..c]) && Records(items[a..c]) == Records(items[a..b]) + Records(items[b..c])
    ensures items[0..c] == items[..c] && items[0..b] == items[..b] && items[0..a] == items[..a]
  {
    assert items[a..c] == items[a..b] + items[b..c];
  }

  predicate HasAnswer(batch: seq<MiRecord>, token: nat) {
    exists i :: 0 <= i < |batch| && Answers(batch[i], token)
  }

  predicate HasStop(batch: seq<MiRecord>) {
    exists i :: 0 <= i < |batch| && IsStop(batch[i])
  }

  /** The records since the write suffice for the command. */
  predicate Satisfied(batch: seq<MiRecord>, token: nat, wait: bool) {
    HasAnswer(batch, token) && (wait ==> HasStop(batch))
  }

  /** What the records since the write determine, read no further than needed: the last answer carries the result. */
  predicate Concludes(resultClass: string, results: seq<MiResult>, stoppedAfter: bool, batch: seq<MiRecord>, token: nat,
                      wait: bool)
  {
    && Satisfied(batch, token, wait)
    && (forall n :: 0 <= n < |batch| ==> !Satisfied(batch[..n], token, wait))
    && stoppedAfter == wait
    && exists i :: 0 <= i < |batch| && Answers(batch[i], token)
                   && (forall j :: i < j < |batch| ==> !Answers(batch[j], token))
                   && resultClass == batch[i].cls && results == batch[i].results
  }

  // ---- When a call succeeds ----

  /** What a drain of these items reports: the first that is unusable, or else that no reader is left. */
  function DrainFailure(items: seq<Result<MiRecord>>, hungUp: bool): Option<Failure> {
    if items == [] then if hungUp then Some(EXITED) else None
    else if !Usable(items[0]) then Some(ItemError(items[0]))
    else DrainFailure(items[1..], hungUp)
  }

  lemma {:induction false} DrainFailureAt(items: seq<Result<MiRecord>>, n: nat, hungUp: bool)
    requires n <= |items| && AllUsable(items[..n])
    ensures n < |items| && !Usable(items[n]) ==> DrainFailure(items, hungUp) == Some(ItemError(items[n]))
    ensures n == |items| ==> DrainFailure(items, hungUp) == if hungUp then Some(EXITED) else None
  {
    if n > 0 {
      assert Usable(items[..n][0]) && items[1..][..n - 1] == items[..n][1..];
      DrainFailureAt(items[1..], n - 1, hungUp);
    }
  }

  /** How far a waiting loop would read that never had enough. */
  function Reach(rounds: seq<Round>, at: nat, total: nat): (end: nat)
    requires at <= total
    ensures at <= end <= total
  {
    if rounds == [] || rounds[0].cancelled || rounds[0].expired then at
    else if at < total && at < rounds[0].arrived then Reach(rounds[1..], at + 1, total)
    else if rounds[0].hungUp && at == total then at
    else Reach(rounds[1..], at, total)
  }

  predicate EnoughAt(inbox: seq<Result<MiRecord>>, since: nat, n: nat, token: nat, wait: bool) {
    since <= n <= |inbox| && AllUsable(inbox[since..n]) && Satisfied(Records(inbox[since..n]), token, wait)
  }

  /** Enough for the command arrives, without an unusable item, before the loop is cancelled, expires or is hung up
      on. */
  ghost predicate Reached(inbox: seq<Result<MiRecord>>, since: nat, rounds: seq<Round>, token: nat, wait: bool)
    requires since <= |inbox|
  {
    exists n :: since <= n <= Reach(rounds, since, |inbox|) && EnoughAt(inbox, since, n, token, wait)
  }

  /** A loop that has read the records since the write, without having enough, and reads no further. */
  lemma {:induction false} NotReached(
    inbox: seq<Result<MiRecord>>, since: nat, next: nat, rounds: seq<Round>, token: nat, wait: bool)
    requires since <= next <= |inbox| && AllUsable(inbox[since..next])
    requires forall n :: 0 <= n <= next - since ==> !Satisfied(Records(inbox[since..next])[..n], token, wait)
    requires Reach(rounds, since, |inbox|) == next || (next < |inbox| && !Usable(inbox[next]))
    ensures !Reached(inbox, since, rounds, token, wait)
  {
    forall n | since <= n <= Reach(rounds, since, |inbox|) ensures !EnoughAt(inbox, since, n, token, wait) {
      if n <= next {
        assert inbox[since..next][..n - since] == inbox[since..n];
        if AllUsable(inbox[since..n]) {
          assert Records(inbox[since..next])[..n - since] == Records(inbox[since..n]);
        }
      } else {
        assert inbox[since..n][next - since] == inbox[next];
      }
    }
  }

  /** What a waiting loop reports that never has enough: the first unusable item that it comes to, the deadline, the
      end of the readers, or a cancellation, for which it drains once more and reports what that finds. */
  function LoopFailure(inbox: seq<Result<MiRecord>>, at: nat, rounds: seq<Round>, timeout: Code): Failure
    requires at <= |inbox|
    decreases |rounds|
  {
    if rounds == [] || (rounds[0].expired && !rounds[0].cancelled) then Failure(Debugger, timeout)
    else
      var round := rounds[0];
      if round.cancelled then
        var end := DrainTo(inbox, at, round.arrived);
        var lost := DrainFailure(inbox[at..end], round.hungUp && end == |inbox|);
        if lost.Some? then lost.value else INTERRUPTION
      else if at < |inbox| && at < round.arrived then
        if Usable(inbox[at]) then LoopFailure(inbox, at + 1, rounds[1..], timeout) else ItemError(inbox[at])
      else if round.hungUp && at == |inbox| then EXITED
      else LoopFailure(inbox, at, rounds[1..], timeout)
  }

  /** Where a drain that starts at `at` and sees `arrived` items ends when nothing is wrong with them. */
  function DrainTo(inbox: seq<Result<MiRecord>>, at: nat, arrived: nat): (end: nat)
    requires at <= |inbox|
    ensures at <= end <= |inbox|
  {
    if arrived <= at then at else Min(arrived, |inbox|)
  }

  lemma LoopFailureStep(inbox: seq<Result<MiRecord>>, at: nat, rounds: seq<Round>, timeout: Code)
    requires at <= |inbox| && rounds != [] && !rounds[0].cancelled && !rounds[0].expired
    ensures at < |inbox| && at < rounds[0].arrived && Usable(inbox[at]) ==>
      LoopFailure(inbox, at, rounds, timeout) == LoopFailure(inbox, at + 1, rounds[1..], timeout)
    ensures at < |inbox| && at < rounds[0].arrived && !Usable(inbox[at]) ==>
      LoopFailure(inbox, at, rounds, timeout) == ItemError(inbox[at])
    ensures !(at < |inbox| && at < rounds[0].arrived) ==>
      LoopFailure(inbox, at, rounds, timeout) ==
      if rounds[0].hungUp && at == |inbox| then EXITED else LoopFailure(inbox, at, rounds[1..], timeout)
  {}

  lemma LoopFailureEnd(inbox: seq<Result<MiRecord>>, at: nat, rounds: seq<Round>, timeout: Code)
    requires at <= |inbox|
    ensures rounds == [] || (rounds[0].expired && !rounds[0].cancelled) ==>
      LoopFailure(inbox, at, rounds, timeout) == Failure(Debugger, timeout)
    ensures rounds != [] && rounds[0].cancelled ==>
      var end := DrainTo(inbox, at, rounds[0].arrived);
      var lost := DrainFailure(inbox[at..end], rounds[0].hungUp && end == |inbox|);
      LoopFailure(inbox, at, rounds, timeout) == if lost.Some? then lost.value else INTERRUPTION
  {}

  /** A stop arrives, after nothing but usable items, before the loop is cancelled, expires or is hung up on. */
  ghost predicate StopReached(inbox: seq<Result<MiRecord>>, since: nat, rounds: seq<Round>)
    requires since <= |inbox|
  {
    exists n :: since < n <= Reach(rounds, since, |inbox|) && AllUsable(inbox[since..n]) && IsStop(inbox[n - 1].value)
  }

  lemma {:induction false} StopIsReached(inbox: seq<Result<MiRecord>>, since: nat, next: nat, rounds: seq<Round>)
    requires since < next <= |inbox| && next <= Reach(rounds, since, |inbox|) && AllUsable(inbox[since..next])
    requires IsStop(inbox[next - 1].value)
    ensures StopReached(inbox, since, rounds)
  {}

  /** A loop that has read no stop and reads no further. */
  lemma {:induction false} StopNotReached(inbox: seq<Result<MiRecord>>, since: nat, next: nat, rounds: seq<Round>)
    requires since <= next <= |inbox| && AllUsable(inbox[since..next])
    requires var records := Records(inbox[since..next]); forall k :: 0 <= k < |records| ==> !IsStop(records[k])
    requires Reach(rounds, since, |inbox|) == next || (next < |inbox| && !Usable(inbox[next]))
    ensures !StopReached(inbox, since, rounds)
  {
    var records := Records(inbox[since..next]);
    assert forall n :: since <= n < next ==> inbox[since..next][n - since] == inbox[n] == Ok(records[n - since]);
    if Reach(rounds, since, |inbox|) != next {
      forall n: nat | since < n <= Reach(rounds, since, |inbox|)
        ensures !(AllUsable(inbox[since..n]) && IsStop(inbox[n - 1].value))
      {
        if next < n {
          UnusableWithin(inbox, since, n, next);
        }
      }
    }
  }

  lemma {:induction false} UnusableWithin(inbox: seq<Result<MiRecord>>, since: nat, n: nat, k: nat)
    requires since <= k < n <= |inbox| && !Usable(inbox[k])
    ensures !AllUsable(inbox[since..n])
  {
    assert inbox[since..n][k - since] == inbox[k];
  }

  lemma ReachStep(rounds: seq<Round>, at: nat, total: nat)
    requires at <= total
    ensures Reach(rounds, at, total) ==
            if rounds == [] || rounds[0].cancelled || rounds[0].expired then at
            else if at < total && at < rounds[0].arrived then Reach(rounds[1..], at + 1, total)
            else if rounds[0].hungUp && at == total then at
            else Reach(rounds[1..], at, total)
  {}

  lemma {:induction false} ReachedHere(
    inbox: seq<Result<MiRecord>>, since: nat, next: nat, rounds: seq<Round>, token: nat, wait: bool)
    requires since <= |inbox| && since <= next <= Reach(rounds, since, |inbox|) && AllUsable(inbox[since..next])
    requires Satisfied(Records(inbox[since..next]), token, wait)
    ensures Reached(inbox, since, rounds, token, wait)
  {
    assert EnoughAt(inbox, since, next, token, wait);
  }

  predicate FirstAnswerAt(batch: seq<MiRecord>, token: nat, k: nat) {
    k < |batch| && Answers(batch[k], token) && forall j :: 0 <= j < k ==> !Answers(batch[j], token)
  }

  /** In what a waiting call concludes from, a stop follows the result if and only if none lies between the write and
      the result; otherwise the batch ends with the result and every stop in it came before. */
  lemma {:induction false} StopFollowsResultIff(
    resultClass: string, results: seq<MiResult>, stoppedAfter: bool, batch: seq<MiRecord>, token: nat, k: nat)
    requires Concludes(resultClass, results, stoppedAfter, batch, token, true) && FirstAnswerAt(batch, token, k)
    ensures (exists j :: k < j < |batch| && IsStop(batch[j])) <==> forall j :: 0 <= j < k ==> !IsStop(batch[j])
    ensures (exists j :: 0 <= j < k && IsStop(batch[j])) ==> k == |batch| - 1
  {
    if i :| 0 <= i < k && IsStop(batch[i]) {
      var prefix := batch[..k + 1];
      assert Answers(prefix[k], token) && IsStop(prefix[i]);
      assert Satisfied(prefix, token, true);
    } else {
      var i :| 0 <= i < |batch| && IsStop(batch[i]);
      assert i != k;
    }
  }

  /** The shortest case: the stop comes first, then the result, and the waiting call has enough. */
  lemma {:induction false} StopBeforeResult(token: nat, reason: seq<MiResult>)
    ensures var inbox := [Ok(Exec("stopped", reason)), Ok(ResultRecord(Some(token), "running", []))];
            var rounds := [Round(false, false, 2, false), Round(false, false, 2, false)];
            && Reached(inbox, 0, rounds, token, true)
            && Concludes("running", [], true, Records(inbox), token, true) && FirstAnswerAt(Records(inbox), token, 1)
            && IsStop(Records(inbox)[0])
  {
    var inbox := [Ok(Exec("stopped", reason)), Ok(ResultRecord(Some(token), "running", []))];
    var round := Round(false, false, 2, false);
    var batch := Records(inbox);
    assert [round, round][1..] == [round];
    assert Reach([round, round], 0, 2) == Reach([round], 1, 2) == Reach([], 2, 2) == 2;
    assert Answers(batch[1], token) && IsStop(batch[0]);
    assert inbox[0..2] == inbox;
    assert EnoughAt(inbox, 0, 2, token, true);
    forall n | 0 <= n < 2 ensures !HasAnswer(batch[..n], token) {}
  }

  /** Tokens grow with every line; only the final exit request may repeat an exhausted token. */
  predicate Increasing(written: seq<Written>) {
    forall i, j :: 0 <= i < j < |written| ==>
      written[i].token < written[j].token || (written[j].command == "-gdb-exit" && written[j].token == U64_MAX)
  }

  /** The command that a result with this token answers: the first line written with it. */
  function CommandFor(written: seq<Written>, token: nat): Option<string> {
    if written == [] then None
    else if written[0].token == token then Some(written[0].command)
    else CommandFor(written[1..], token)
  }

  lemma {:induction false} CommandForFresh(written: seq<Written>, w: Written)
    requires forall i :: 0 <= i < |written| ==> written[i].token < w.token
    ensures CommandFor(written + [w], w.token) == Some(w.command)
  {
    if written != [] {
      assert (written + [w])[1..] == written[1..] + [w];
      CommandForFresh(written[1..], w);
    }
  }

  /** Lines written later never change which command a token belongs to. */
  lemma {:induction false} CommandForStable(written: seq<Written>, more: seq<Written>, token: nat)
    requires CommandFor(written, token).Some?
    ensures CommandFor(written + more, token) == CommandFor(written, token)
  {
    assert (written + more)[1..] == written[1..] + more;
    if written[0].token != token {
      CommandForStable(written[1..], more, token);
    }
  }

  /** Every command of a growing history is the one its token belongs to. */
  lemma {:induction false} CommandForEvery(written: seq<Written>, i: nat)
    requires Increasing(written) && i < |written| && written[i].command != "-gdb-exit"
    ensures CommandFor(written, written[i].token) == Some(written[i].command)
  {
    if i > 0 {
      assert written[0].token < written[i].token;
      assert written[1..][i - 1] == written[i];
      CommandForEvery(written[1..], i - 1);
    }
  }

  class GdbMiProcess {
    /** Everything the reader threads ever send, in order. */
    const inbox: seq<Result<MiRecord>>
    var next: nat
    var token: nat
    var stopped: bool
    var stdinOpen: bool
    /** Every line written so far. */
    ghost var written: seq<Written>
    /** The batches that successful calls returned, concatenated. */
    ghost var handedOut: seq<MiRecord>
    /** No call has failed so far. */
    ghost var intact: bool

    constructor (inbox: seq<Result<MiRecord>>)
      ensures Valid() && this.inbox == inbox && next == 0 && token == 0 && !stopped && stdinOpen
      ensures written == [] && handedOut == [] && intact
    {
      this.inbox, next, token, stopped, stdinOpen := inbox, 0, 0, false, true;
      written, handedOut, intact := [], [], true;
    }

    /** Kept by every call. */
    ghost predicate Valid()
      reads this
    {
      TokensGrow() && Conserved()
    }

    /** A token identifies the line it was written with. */
    ghost predicate TokensGrow()
      reads this`token, this`written
    {
      && token <= U64_MAX
      && (forall i :: 0 <= i < |written| ==> written[i].token <= token)
      && Increasing(written)
    }

    /** While no call has failed, the batches returned so far are exactly the first `next` records delivered. */
    ghost predicate Conserved()
      reads this`next, this`intact, this`handedOut
    {
      && next <= |inbox|
      && (intact ==> AllUsable(inbox[..next]) && handedOut == Records(inbox[..next]))
    }

    /** Where a drain that sees `arrived` items ends when nothing is wrong with them. */
    function DrainEnd(arrived: nat): (end: nat)
      requires next <= |inbox|
      reads this
      ensures next <= end <= |inbox|
    {
      DrainTo(inbox, next, arrived)
    }

    /** Takes what has arrived; the first unusable item is consumed and reported. */
    method DrainPending(arrived: nat, hungUp: bool) returns (r: Result<seq<MiRecord>>)
      requires next <= |inbox|
      modifies this`next
      ensures old(next) <= next <= old(DrainEnd(arrived))
      ensures r.Ok? ==> next == old(DrainEnd(arrived)) && AllUsable(inbox[old(next)..next])
                        && r.value == Records(inbox[old(next)..next])
      ensures r.Err? ==> (next > old(next) && AllUsable(inbox[old(next)..next - 1]) && !Usable(inbox[next - 1])
                          && r.error == ItemError(inbox[next - 1]))
                         || (hungUp && next == |inbox| && r.error == EXITED)
      ensures var failure := DrainFailure(inbox[old(next)..old(DrainEnd(arrived))],
                                          hungUp && old(DrainEnd(arrived)) == |inbox|);
              (r.Ok? <==> failure.None?) && (r.Err? ==> failure == Some(r.error))
    {
      hide DrainFailure;
      var records := [];
      ghost var start, end := next, DrainEnd(arrived);
      while next < |inbox| && next < arrived
        invariant start <= next <= end <= |inbox|
        invariant AllUsable(inbox[start..next]) && records == Records(inbox[start..next])
        decreases |inbox| - next
      {
        var item := inbox[next];
        next := next + 1;
        if !Usable(item) {
          assert inbox[start..end][next - 1 - start] == item;
          assert inbox[start..end][..next - 1 - start] == inbox[start..next - 1];
          DrainFailureAt(inbox[start..end], next - 1 - start, hungUp && end == |inbox|);
          return Err(ItemError(item));
        }
        assert inbox[start..next] == inbox[start..next - 1] + [item];
        records := records + [item.value];
      }
      assert inbox[start..end][..end - start] == inbox[start..end];
      DrainFailureAt(inbox[start..end], end - start, hungUp && end == |inbox|);
      if hungUp && next == |inbox| {
        return Err(EXITED);
      }
      r := Ok(records);
    }

    method WriteCommand(t: nat, command: string, writable: bool) returns (r: Result<()>)
      modifies this`written
      ensures r.Ok? ==> written == old(written) + [Written(t, command)]
      ensures r.Err? ==> written == old(written)
      ensures r == if '\n' in command || '\r' in command then Err(Failure(Debugger, GDB_COMMAND_INVALID))
                   else if !stdinOpen then Err(EXITED)
                   else if !writable then Err(Failure(Debugger, GDB_WRITE_FAILED))
                   else Ok(())
    {
      if '\n' in command || '\r' in command {
        return Err(Failure(Debugger, GDB_COMMAND_INVALID));
      }
      if !stdinOpen {
        return Err(EXITED);
      }
      if !writable {
        return Err(Failure(Debugger, GDB_WRITE_FAILED));
      }
      written := written + [Written(t, command)];
      r := Ok(());
    }

    /** One command. The output's result answers a token that no earlier line carried, so no late result of an
        earlier command can be taken for it; a waiting call ends with a stop received since the write, a call that
        does not wait never reports one. */
    method Command(
      command: string, wait: bool, first: Round, writable: bool, rounds: seq<Round>) returns (r: Result<Output>)
      requires Valid()
      modifies this`next, this`token, this`written, this`handedOut, this`intact
      ensures Valid() && next >= old(next)
      ensures intact == (old(intact) && r.Ok?)
      ensures r.Ok? ==>
        && token == old(token) + 1
        && written == old(written) + [Written(token, command)]
        && (forall i :: 0 <= i < |old(written)| ==> old(written)[i].token < token)
        && CommandFor(written, token) == Some(command)
        && Delivers(r.value, old(next), old(DrainEnd(first.arrived)), wait)
      ensures r.Ok? <==> old(Succeeds(command, wait, first, writable, rounds))
      ensures r.Err? ==> r.error == old(CommandFailure(command, first, writable, rounds))
      ensures r.Err? ==> written == old(written) || written == old(written) + [Written(old(token) + 1, command)]
      ensures r.Err? && r.error == INTERRUPTION ==>
        first.cancelled || (exists i :: 0 <= i < |rounds| && rounds[i].cancelled)
        || (exists i :: old(next) <= i < next && inbox[i] == Err(INTERRUPTION))
      ensures old(stopped) ==> r == Err(EXITED) && next == old(next)
      ensures !old(stopped) && first.cancelled ==> r == Err(INTERRUPTION) && next == old(next)
    {
      ghost var start, whole := next, intact;
      intact := false;
      r := Exchange(command, wait, first, writable, rounds);
      if whole && r.Ok? {
        HandOut(start, r.value.records);
      }
    }

    /** What a command needs to succeed: an open process, a clean drain, a token to spare, a line that can be written,
        and enough records after the write. */
    ghost predicate Succeeds(command: string, wait: bool, first: Round, writable: bool, rounds: seq<Round>)
      requires next <= |inbox|
      reads this
    {
      var since := DrainEnd(first.arrived);
      && !stopped && !first.cancelled
      && DrainFailure(inbox[next..since], first.hungUp && since == |inbox|).None?
      && token < U64_MAX && '\n' !in command && '\r' !in command && stdinOpen && writable
      && Reached(inbox, since, rounds, token + 1, wait)
    }

    /** Why a command fails that does. */
    ghost function CommandFailure(command: string, first: Round, writable: bool, rounds: seq<Round>): Failure
      requires next <= |inbox|
      reads this
    {
      var since := DrainEnd(first.arrived);
      var drained := DrainFailure(inbox[next..since], first.hungUp && since == |inbox|);
      if stopped then EXITED
      else if first.cancelled then INTERRUPTION
      else if drained.Some? then drained.value
      else if token >= U64_MAX then Failure(Debugger, GDB_TOKEN_EXHAUSTED)
      else if '\n' in command || '\r' in command then Failure(Debugger, GDB_COMMAND_INVALID)
      else if !stdinOpen then EXITED
      else if !writable then Failure(Debugger, GDB_WRITE_FAILED)
      else LoopFailure(inbox, since, rounds, GDB_COMMAND_TIMEOUT)
    }

    /** The output holds every record from `start` on, and its result is concluded from those after `since`. */
    ghost predicate Delivers(o: Output, start: nat, since: nat, wait: bool)
      reads this`next, this`token
    {
      && start <= since <= next <= |inbox|
      && AllUsable(inbox[start..next]) && o.records == Records(inbox[start..next])
      && AllUsable(inbox[since..next])
      && Concludes(o.resultClass, o.results, o.stoppedAfterCommand, Records(inbox[since..next]), token, wait)
    }

    method Exchange(
      command: string, wait: bool, first: Round, writable: bool, rounds: seq<Round>) returns (r: Result<Output>)
      requires TokensGrow() && next <= |inbox|
      modifies this`next, this`token, this`written
      ensures TokensGrow() && old(next) <= next <= |inbox|
      ensures r.Ok? ==>
        && token == old(token) + 1
        && written == old(written) + [Written(token, command)]
        && (forall i :: 0 <= i < |old(written)| ==> old(written)[i].token < token)
        && CommandFor(written, token) == Some(command)
        && Delivers(r.value, old(next), old(DrainEnd(first.arrived)), wait)
      ensures r.Ok? <==> old(Succeeds(command, wait, first, writable, rounds))
      ensures r.Err? ==> r.error == old(CommandFailure(command, first, writable, rounds))
      ensures r.Err? ==> written == old(written) || written == old(written) + [Written(old(token) + 1, command)]
      ensures r.Err? && r.error == INTERRUPTION ==>
        first.cancelled || (exists i :: 0 <= i < |rounds| && rounds[i].cancelled)
        || (exists i :: old(next) <= i < next && inbox[i] == Err(INTERRUPTION))
      ensures stopped ==> r == Err(EXITED) && next == old(next)
      ensures !stopped && first.cancelled ==> r == Err(INTERRUPTION) && next == old(next)
    {
      hide Concludes;
      hide Reached;
      hide DrainFailure;
      hide LoopFailure;
      hide Increasing;
      hide CommandFor;
      if stopped {
        return Err(EXITED);
      }
      if first.cancelled {
        return Err(INTERRUPTION);
      }
      ghost var start := next;
      var drained := DrainPending(first.arrived, first.hungUp);
      if drained.Err? {
        return Err(drained.error);
      }
      var sent := Send(command, writable);
      if sent.Err? {
        return Err(sent.error);
      }
      ghost var since := next;
      var answered := Await(wait, rounds);
      if answered.Err? {
        return Err(answered.error);
      }
      RecordsAppend(inbox, start, since, next);
      r := Ok(answered.value.(records := drained.value + answered.value.records));
    }

    /** Writes a command under a token that no earlier line carries. */
    method Send(command: string, writable: bool) returns (r: Result<()>)
      requires TokensGrow()
      modifies this`token, this`written
      ensures TokensGrow()
      ensures r.Ok? ==>
        && token == old(token) + 1
        && written == old(written) + [Written(token, command)]
        && (forall i :: 0 <= i < |old(written)| ==> old(written)[i].token < token)
        && CommandFor(written, token) == Some(command)
      ensures r.Ok? <==> old(token) < U64_MAX && '\n' !in command && '\r' !in command && stdinOpen && writable
      ensures r.Err? ==> written == old(written)
      ensures r.Err? ==> r.error == if old(token) >= U64_MAX then Failure(Debugger, GDB_TOKEN_EXHAUSTED)
                                    else if '\n' in command || '\r' in command then
                                      Failure(Debugger, GDB_COMMAND_INVALID)
                                    else if !stdinOpen then EXITED
                                    else Failure(Debugger, GDB_WRITE_FAILED)
    {
      if token == U64_MAX {
        return Err(Failure(Debugger, GDB_TOKEN_EXHAUSTED));
      }
      token := token + 1;
      CommandForFresh(written, Written(token, command));
      r := WriteCommand(token, command, writable);
    }

    /** Records that a batch starting at `start` has been handed out. */
    ghost method HandOut(start: nat, records: seq<MiRecord>)
      requires start <= next <= |inbox|
      requires AllUsable(inbox[..start]) && handedOut == Records(inbox[..start])
      requires AllUsable(inbox[start..next]) && records == Records(inbox[start..next])
      modifies this`handedOut, this`intact
      ensures intact && Conserved()
    {
      RecordsAppend(inbox, 0, start, next);
      handedOut := handedOut + records;
      intact := true;
    }

    /** The waiting loop of a command that has just been written with the current token. */
    method Await(wait: bool, rounds: seq<Round>) returns (r: Result<Output>)
      requires next <= |inbox|
      modifies this`next
      ensures old(next) <= next <= |inbox|
      ensures r.Ok? ==> AllUsable(inbox[old(next)..next]) && r.value.records == Records(inbox[old(next)..next])
                        && Concludes(r.value.resultClass, r.value.results, r.value.stoppedAfterCommand,
                                     r.value.records, token, wait)
      ensures r.Ok? <==> Reached(inbox, old(next), rounds, token, wait)
      ensures r.Err? ==> r.error == LoopFailure(inbox, old(next), rounds, GDB_COMMAND_TIMEOUT)
      ensures r.Err? && r.error == INTERRUPTION ==>
        (exists i :: 0 <= i < |rounds| && rounds[i].cancelled)
        || (exists i :: old(next) <= i < next && inbox[i] == Err(INTERRUPTION))
    {
      hide Reach;
      hide LoopFailure;
      hide Reached;
      hide Satisfied;
      hide Concludes;
      hide Progress;
      hide DrainFailure;
      hide DrainTo;
      hide HasStop;
      ghost var since := next;
      assert rounds[0..] == rounds;
      ProgressStart(token, wait);
      var records := [];
      var result: Option<(string, seq<MiResult>)> := None;
      var stop := !wait;
      var stoppedAfterCommand := false;
      var i := 0;
      while result.None? || !stop
        invariant 0 <= i <= |rounds| && since <= next <= |inbox|
        invariant AllUsable(inbox[since..next]) && records == Records(inbox[since..next])
        invariant Progress(records, token, wait, result, stop, stoppedAfterCommand)
        invariant Reach(rounds[i..], next, |inbox|) == Reach(rounds, since, |inbox|)
        invariant LoopFailure(inbox, next, rounds[i..], GDB_COMMAND_TIMEOUT) ==
                  LoopFailure(inbox, since, rounds, GDB_COMMAND_TIMEOUT)
        decreases |rounds| - i
      {
        ghost var left := rounds[i..];
        ReachStep(left, next, |inbox|);
        LoopFailureEnd(inbox, next, left, GDB_COMMAND_TIMEOUT);
        if left != [] && !left[0].cancelled && !left[0].expired {
          LoopFailureStep(inbox, next, left, GDB_COMMAND_TIMEOUT);
        }
        ProgressUnsatisfied(records, token, wait, result, stop, stoppedAfterCommand);
        if Reach(rounds, since, |inbox|) == next || (next < |inbox| && !Usable(inbox[next])) {
          NotReached(inbox, since, next, rounds, token, wait);
        }
        if i == |rounds| {
          return Err(Failure(Debugger, GDB_COMMAND_TIMEOUT));
        }
        var round := rounds[i];
        i := i + 1;
        assert left[0] == round && left[1..] == rounds[i..];
        if round.cancelled {
          var lost := DrainPending(round.arrived, round.hungUp);
          if lost.Err? {
            return Err(lost.error);
          }
          return Err(INTERRUPTION);
        }
        if round.expired {
          return Err(Failure(Debugger, GDB_COMMAND_TIMEOUT));
        }
        if next >= |inbox| || next >= round.arrived {
          if round.hungUp && next == |inbox| {
            return Err(EXITED);
          }
          continue;
        }
        var item := inbox[next];
        next := next + 1;
        if !Usable(item) {
          return Err(ItemError(item));
        }
        var record := item.value;
        ghost var held := result;
        if Answers(record, token) {
          result := Some((record.cls, record.results));
        }
        if (wait || result.Some?) && IsStop(record) {
          stop := true;
          stoppedAfterCommand := true;
        }
        assert inbox[since..next] == inbox[since..next - 1] + [item];
        ProgressStep(records, record, token, wait, held, stop, stoppedAfterCommand, result);
        records := records + [record];
      }
      ProgressConcludes(records, token, wait, result, stop, stoppedAfterCommand);
      ReachedHere(inbox, since, next, rounds, token, wait);
      r := Ok(Output(result.value.0, result.value.1, records, stoppedAfterCommand));
    }

    /** Reads until a stop record; the batch ends with it and holds no other. */
    method WaitForStop(rounds: seq<Round>) returns (r: Result<seq<MiRecord>>)
      requires Valid()
      modifies this`next, this`handedOut, this`intact
      ensures Valid() && next >= old(next)
      ensures intact == (old(intact) && r.Ok?)
      ensures r.Ok? ==> AllUsable(inbox[old(next)..next]) && r.value == Records(inbox[old(next)..next])
                        && r.value != [] && IsStop(r.value[|r.value| - 1])
                        && forall i :: 0 <= i < |r.value| - 1 ==> !IsStop(r.value[i])
      ensures r.Ok? <==> StopReached(inbox, old(next), rounds)
      ensures r.Err? ==> r.error == LoopFailure(inbox, old(next), rounds, GDB_STOP_TIMEOUT)
      ensures r.Err? && r.error == INTERRUPTION ==>
        (exists i :: 0 <= i < |rounds| && rounds[i].cancelled)
        || (exists i :: old(next) <= i < next && inbox[i] == Err(INTERRUPTION))
    {
      hide Reach;
      hide LoopFailure;
      hide StopReached;
      hide DrainFailure;
      hide Increasing;
      hide IsStop;
      hide IsDisconnect;
      hide Records;
      ghost var start, whole := next, intact;
      assert rounds[0..] == rounds;
      intact := false;
      var records := [];
      for i := 0 to |rounds|
        invariant start <= next <= |inbox| && Valid() && !intact && handedOut == old(handedOut)
        invariant AllUsable(inbox[start..next]) && records == Records(inbox[start..next])
        invariant forall k :: 0 <= k < |records| ==> !IsStop(records[k])
        invariant Reach(rounds[i..], next, |inbox|) == Reach(rounds, start, |inbox|)
        invariant LoopFailure(inbox, next, rounds[i..], GDB_STOP_TIMEOUT) ==
                  LoopFailure(inbox, start, rounds, GDB_STOP_TIMEOUT)
      {
        var round := rounds[i];
        ghost var left := rounds[i..];
        assert left[0] == round && left[1..] == rounds[i + 1..];
        ReachStep(left, next, |inbox|);
        LoopFailureEnd(inbox, next, left, GDB_STOP_TIMEOUT);
        if !round.cancelled && !round.expired {
          LoopFailureStep(inbox, next, left, GDB_STOP_TIMEOUT);
        }
        if Reach(rounds, start, |inbox|) == next || (next < |inbox| && !Usable(inbox[next])) {
          StopNotReached(inbox, start, next, rounds);
        }
        if round.cancelled {
          var lost := DrainPending(round.arrived, round.hungUp);
          if lost.Err? {
            return Err(lost.error);
          }
          return Err(INTERRUPTION);
        }
        if round.expired {
          return Err(Failure(Debugger, GDB_STOP_TIMEOUT));
        }
        if next >= |inbox| || next >= round.arrived {
          if round.hungUp && next == |inbox| {
            return Err(EXITED);
          }
          continue;
        }
        var item := inbox[next];
        next := next + 1;
        if !Usable(item) {
          return Err(ItemError(item));
        }
        assert inbox[start..next] == inbox[start..next - 1] + [item];
        records := records + [item.value];
        if IsStop(item.value) {
          StopIsReached(inbox, start, next, rounds);
          if whole {
            HandOut(start, records);
          }
          return Ok(records);
        }
      }
      ReachStep([], next, |inbox|);
      LoopFailureEnd(inbox, next, [], GDB_STOP_TIMEOUT);
      assert rounds[|rounds|..] == [];
      StopNotReached(inbox, start, next, rounds);
      r := Err(Failure(Debugger, GDB_STOP_TIMEOUT));
    }

    method PollRecords(arrived: nat, hungUp: bool) returns (r: Result<seq<MiRecord>>)
      requires Valid()
      modifies this`next, this`handedOut, this`intact
      ensures Valid() && next >= old(next)
      ensures intact == (old(intact) && r.Ok?)
      ensures r.Ok? ==> next == old(DrainEnd(arrived)) && AllUsable(inbox[old(next)..next])
                        && r.value == Records(inbox[old(next)..next])
      ensures var failure := DrainFailure(inbox[old(next)..old(DrainEnd(arrived))],
                                          hungUp && old(DrainEnd(arrived)) == |inbox|);
              (r.Ok? <==> failure.None?) && (r.Err? ==> failure == Some(r.error))
    {
      hide DrainFailure;
      ghost var start := next;
      r := DrainPending(arrived, hungUp);
      if r.Err? {
        intact := false;
      } else if intact {
        HandOut(start, r.value);
      }
    }

    /** Asks GDB to exit, ignoring whether the request could be written, and reaps it. */
    method Shutdown(writable: bool, reaped: Result<()>) returns (r: Result<()>)
      requires Valid()
      modifies this`token, this`written, this`stdinOpen, this`stopped
      ensures Valid()
      ensures old(stopped) ==> r == Ok(()) && written == old(written) && stopped
      ensures !old(stopped) ==> r == reaped && stopped == reaped.Ok? && !stdinOpen
      ensures !old(stopped) ==>
        token == Min(old(token) + 1, U64_MAX)
        && written == old(written) + if old(stdinOpen) && writable then [Written(token, "-gdb-exit")] else []
    {
      if stopped {
        return Ok(());
      }
      token := if token == U64_MAX then token else token + 1;
      var ignored := WriteCommand(token, "-gdb-exit", writable);
      stdinOpen := false;
      if reaped.Ok? {
        stopped := true;
      }
      r := reaped;
    }
  }

  /** What the command loop knows after the records `batch`. */
  ghost predicate Progress(
    batch: seq<MiRecord>, token: nat, wait: bool, result: Option<(string, seq<MiResult>)>, stop: bool,
                           stoppedAfter: bool)
  {
    && (result.Some? <==> HasAnswer(batch, token))
    && (result.Some? ==> exists i :: 0 <= i < |batch| && Answers(batch[i], token)
                                     && (forall j :: i < j < |batch| ==> !Answers(batch[j], token))
                                     && result.value == (batch[i].cls, batch[i].results))
    && (wait ==> (stop <==> HasStop(batch)) && stoppedAfter == stop)
    && (!wait ==> stop && !stoppedAfter)
    && (forall n :: 0 <= n < |batch| ==> !Satisfied(batch[..n], token, wait))
  }

  lemma {:induction false} ProgressUnsatisfied(
    batch: seq<MiRecord>, token: nat, wait: bool, result: Option<(string, seq<MiResult>)>, stop: bool,
    stoppedAfter: bool)
    requires Progress(batch, token, wait, result, stop, stoppedAfter) && (result.None? || !stop)
    ensures forall n :: 0 <= n <= |batch| ==> !Satisfied(batch[..n], token, wait)
  {
    assert batch[..|batch|] == batch;
  }

  lemma ProgressStart(token: nat, wait: bool)
    ensures Progress([], token, wait, None, !wait, false)
  {}

  lemma {:induction false} ProgressConcludes(
    batch: seq<MiRecord>, token: nat, wait: bool, result: Option<(string, seq<MiResult>)>, stop: bool,
    stoppedAfter: bool)
    requires Progress(batch, token, wait, result, stop, stoppedAfter) && result.Some? && stop
    ensures Satisfied(batch, token, wait)
    ensures Concludes(result.value.0, result.value.1, stoppedAfter, batch, token, wait)
  {
    var i :| 0 <= i < |batch| && Answers(batch[i], token)
             && (forall j :: i < j < |batch| ==> !Answers(batch[j], token))
             && result.value == (batch[i].cls, batch[i].results);
  }

  lemma {:induction false} ProgressStep(
    batch: seq<MiRecord>, record: MiRecord, token: nat, wait: bool, held: Option<(string, seq<MiResult>)>,
                     stop: bool, stoppedAfter: bool, result: Option<(string, seq<MiResult>)>)
    requires exists s, a :: Progress(batch, token, wait, held, s, a) && (held.None? || !s)
                            && stop == (s || ((wait || result.Some?) && IsStop(record)))
                            && stoppedAfter == (a || ((wait || result.Some?) && IsStop(record)))
    requires result == if Answers(record, token) then Some((record.cls, record.results)) else held
    ensures Progress(batch + [record], token, wait, result, stop, stoppedAfter)
  {
    var longer := batch + [record];
    assert longer[|batch|] == record;
    forall n | 0 <= n < |longer|
      ensures !Satisfied(longer[..n], token, wait)
    {
      assert longer[..n] == batch[..n];
      assert batch[..|batch|] == batch;
    }
    assert HasAnswer(longer, token) <==> HasAnswer(batch, token) || Answers(record, token) by {
      if i :| 0 <= i < |batch| && Answers(batch[i], token) {
        assert longer[i] == batch[i];
      }
    }
    assert HasStop(longer) <==> HasStop(batch) || IsStop(record) by {
      if i :| 0 <= i < |batch| && IsStop(batch[i]) {
        assert longer[i] == batch[i];
      }
    }
    if result.Some? && !Answers(record, token) {
      var i :| 0 <= i < |batch| && Answers(batch[i], token)
               && (forall j :: i < j < |batch| ==> !Answers(batch[j], token))
               && held.value == (batch[i].cls, batch[i].results);
      assert longer[i] == batch[i];
    }
  }
}
