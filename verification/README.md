# samdebug, modelled and verified in Dafny

samdebug builds, flashes and debugs firmware for SAM4S boards. This project models the parts of it where a mistake is
hard to see from one function, and proves what they promise over all inputs, all runs and all interleavings:

- **GDB/MI parsing** (`MiSyntax`, `MiParser`, `MiRoundTrip`, `MiGrammar`, `MiStream`, `MiWire`). The cursor-based
  recursive descent parser as code, and the line framer. Main results: a line is read as a record if and only if the
  grammar, given as a relation between texts and records, writes that record as this line; rendering any record in any
  mixture of escapes and parsing it gives it back; how the byte stream is cut makes no difference to verdict, error or
  records.
- **Transport** (`Transport`). The token-correlated command loop over an adversarial queue of records.
- **Session engine** (`SessionModel`, `SessionEngine`, `SessionAnswers`, `SessionScripts`, `SessionPlays`,
  `SessionRuns`, `StopBalance`, `EngineTransport`). Every public operation as code that updates the engine, equal to a
  function over a history of events and transport calls. Main results: each operation plays a script that says line by
  line and event by event what it does and how it ends; what every run keeps; and the engine over the transport.
- **Owned session** (`OwnedModel`, `OwnedSession`, `OwnedScripts`, `Supervision`, `OwnerRace`). The launch and the
  owner's operations, and the owner, user, supervisor and reader threads as interleaved atomic steps around one
  cancellation flag. Main result: which end a requested cancellation or a failure can get, over all interleavings with
  the owner's accesses.
- **Incremental build** (`MakeRules`, `BuildOutputs`, `BuildCache`, `BuildHistory`, `BuildCrash`, `BuildWitness`).
  Dependency files, stamps and modification times, with the compiler as any function of its arguments and the files it
  lists. Main results: after any history, an incremental build gives the bytes of a clean one; and exactly when a build
  that dies between its promotions keeps that true, over every compiler that the disk could come from. `BuildWitness`
  holds a small compiler that meets the hypotheses, and runs with it.
- **Installer** (`ArchiveTree`, `Extract`, `ExtractResult`, `ExtractExact`, `InstallModel`, `InstallRuns`,
  `Installer`, `InstallExact`). Extraction under a quota with deferred hard links, and the stage, check, mark and rename
  protocol with a crash possible at every step; the code of an install is proved to take only those steps. Main results:
  exactly which archives are extracted and to what tree; what a success means after any history; exactly when an install
  succeeds and what is there afterwards.
- **Agent protocol** (`AgentFraming`, `AgentProtocol`, `AgentAnswers`, `AgentRuns`). Bounded line framing, one answer
  for each line and which it is, no request executed twice, one session slot.
- **Text and graph algorithms** (`OptionList`, `LinkerScript`, `Reachability`).

`Common` holds results and error codes, `Utf8` the well-formedness of byte strings. Bytes are characters below 256 and
byte strings are `string`. Code that changes things step by step is a class or a method with a loop; its contract
equates the new state with a specification function, and the properties are lemmas about that function. What the
surroundings decide (the time, other processes, GDB, the compiler, the network) is a parameter, so each statement holds
whatever they do.

## Where the code does less than its text suggests

Each of these is proved about the model, with the exact condition under which the stronger statement holds and, where
the condition alone does not show it, an input or a run for which it fails.

- A push that fails loses the records parsed earlier in the same call (`MiStream.FailingPushDrops`); nothing is lost if
  and only if the failing chunk completed none before the error (`MiStream.AllDeliveredIff`). A prompt before a bad line
  is lost in one chunk and arrives in two (`MiStream.PromptLost`).
- The reason and frame of a stop come from the first stop of the batch: from the command's own if and only if none was
  queued before it (`SessionModel.StaleStopDecides`; `SessionModel.StaleStopHides` shows a step reported as a
  breakpoint).
- `docs/debugging.md` describes a stop as counting only after the tokened result. A waiting command succeeds as soon as
  both have come, in either order (`Transport.GdbMiProcess.Command`, whose contract says exactly when it succeeds): with
  the stop first and then the result it has enough (`Transport.StopBeforeResult`), and a stop follows the result in what
  it concludes from if and only if none lies between the write and the result (`Transport.StopFollowsResultIff`).
- A reset-halt of a running target halts the engine once the reset is accepted, and announces the stop if and only if a
  frame is confirmed afterwards (`SessionRuns.ResetHaltAnnounces`). Over whole runs changes into Halted and Stopped
  events balance but for exactly these, and for reset-halts of a halted target (`StopBalance.EveryHaltIsAnnounced`).
- A user's cancellation is not always reported as one. At any point of an operation it still can be, whatever the
  threads do, if and only if nothing stands in the way (`OwnerRace.CancelledIff`). Before the poll: the queue drains
  without an error, holds no stop that has to be queried, the server is alive and the operation makes a call. At the
  entry of a command of the operation: always. Inside it: what waits in the queue drains without an error, or the next
  record completes the command and another call follows. Before the poll the other end is always possible too: the GDB
  that is killed because of the flag may be seen first (`OwnerRace.KilledGdbIsSeenFirst`).
- A failure is not always reported with its cause. An undisturbed decision names a published cause if and only if there
  is one (`OwnerRace.CausePublishedIff`), and over all interleavings it does unless a fatal line was dropped, the token
  came from outside, or a reader's error still waits in the queue (`OwnerRace.CauseIsPublished`). The last happens when
  the error arrives between the poll and the first command: DEBUG_TRANSPORT_FAILED is reported, or OpenOCD is blamed if
  the supervisor has already killed it (`OwnerRace.UndrainedErrorHidden`).
- With the flag up, whoever raised it, a poll ends the operation as interrupted and the session as failed if and only if
  it has to ask for the frame of a stop (`OwnerRace.QueryInterruptsIff`); so an exit of OpenOCD can be reported as an
  interruption that nobody asked for (`OwnerRace.ExitReportedAsInterruption`).
- A fatal OpenOCD line that arrives when the stored log has reached its cap raises the cancellation flag without leaving
  a cause anywhere, and that state is reachable (`Supervision.FullLogHidesCause`, `Supervision.FullLogIsReachable`).
- File names with a dollar sign are read from dependency files with the sign doubled (`MakeRules.RuleRoundTrip`).
- A header that is removed together with its `#include` makes an incremental build fail with `DEPENDENCY_MISSING` when
  its path sorts before every newer input, although a clean build succeeds (`BuildHistory.IncrementalSucceedsIff`; a run
  that ends so: `BuildWitness.RemovedHeaderBlocks`).
- A build that dies between its promotions can leave a slot from which a later build reuses a wrong object. No compiler
  that the disk could come from and no further change of files makes that happen if and only if no stamp is left, or no
  dependency file beside it, or a file that it lists is missing, or the stamp is this job's and the dependency file left
  beside it lists at least the inputs of the new one (`BuildCrash.CrashSoundIff`). It goes wrong on going back to old
  settings (`BuildWitness.RevertMisleads`), and with settings and stamp unchanged when the build that died was the first
  to include a header that changes later (`BuildWitness.LateIncludeMisleads`).
- A change of files is noticed if and only if it touches one that the dependency file lists
  (`BuildCrash.ChangeNoticedIff`). After one that is not noticed, reusing the object is right, for every compiler that
  lists what it reads and can have made it, if and only if each path that the compilation looked for exists now exactly
  if it did then (`BuildCrash.UnnoticedChangeIff`). So a header that comes to be found where the compiler looked in vain
  goes unnoticed (`BuildWitness.NewHeaderMisleads`, `BuildWitness.PeekSearches`).
- A destination is never repaired if its marker cannot be read, or if its marker fits while an executable or a licence
  is missing, an executable cannot be run, or the tree holds a link, a special entry or a file whose path is not UTF-8,
  or if it is no directory (`InstallRuns.IsValidFailsIff`, `InstallRuns.NeverRepaired`). With a good archive an install
  succeeds if and only if the destination is not such a one, and is not an intact one whose executables report another
  version (`InstallerCode.InstallsIff`). When a version is released again with another archive, an install that is cut
  off while it removes the old tree can leave just that for the old release (`InstallRuns.InterruptedUpgradeStrands`).
- A crash leaves an expanded archive behind for good if and only if it hits the unpacking
  (`InstallRuns.CrashStrandsArchive`, `InstallRuns.StrandedForGood`; from an empty disk:
  `InstallRuns.StrandingHappens`).
- An empty quoted option vanishes (`OptionList.QuotingInverts`).

## Model

| member | source | states |
|---|---|---|
| `MiParser.ParseRecord` | crates/samdebug-debug/src/mi.rs:108-188 | the line parser returns, for every text, exactly the record or error code the grammar functions define |
| `MiParser.ValueParser.ParseValue` | crates/samdebug-debug/src/mi.rs:250-262 | from any cursor position, value, error and remaining text are those of the grammar; terminates on the remaining length |
| `MiParser.ValueParser.ParseResultSequence` | crates/samdebug-debug/src/mi.rs:213-232 | the same for comma-separated results up to a terminator |
| `MiParser.ValueParser.ParseList` | crates/samdebug-debug/src/mi.rs:264-293 | the same for mixed lists of values and results |
| `MiParser.ValueParser.ParseCString` | crates/samdebug-debug/src/mi.rs:295-309 | the same for C strings, with the UTF-8 check on the decoded bytes |
| `MiParser.ValueParser.ParseEscape` | crates/samdebug-debug/src/mi.rs:311-339 | the same for one escape; up to three octal digits accumulate with saturation |
| `MiRoundTrip.OctalEscapeSaturates` | crates/samdebug-debug/src/mi.rs:311-339 | one to three octal digits denote the lesser of their value and 255 |
| `MiRoundTrip.CStringInverts` | crates/samdebug-debug/src/mi.rs:295-339 | a string written with any choice of raw, short and octal escapes is read back, leaving what follows |
| `MiRoundTrip.QuoteInverts` | crates/samdebug-debug/src/session.rs:945-959 | parsing inverts `mi_quote` on every string of valid UTF-8 |
| `MiRoundTrip.ValueInverts` | crates/samdebug-debug/src/mi.rs:250-293 | every value of any nesting is read back from its rendering |
| `MiRoundTrip.RecordInverts` | crates/samdebug-debug/src/mi.rs:108-188 | parsing the rendering of any well-formed record returns exactly that record, in every escaping style, in the form of the manual or in the one GDB writes: a prompt with a blank behind it, a download progress without a name |
| `MiRoundTrip.PromptIff` | crates/samdebug-debug/src/mi.rs:109-111 | exactly two texts are the prompt: with and without one blank at the end |
| `MiRoundTrip.ProgressInverts` | crates/samdebug-debug/src/mi.rs:155-175 | the unnamed tuple of a download status is read under the name progress |
| `MiRoundTrip.ParsedRecords` | crates/samdebug-debug/src/mi.rs:108-188 | a record is well formed if and only if some text parses to it |
| `MiRoundTrip.RenderInjective` | crates/samdebug-debug/src/mi.rs:108-188 | no two records share a rendering, whatever the styles and forms |
| `MiGrammar.AcceptedIff` | crates/samdebug-debug/src/mi.rs:108-353 | a line is read as a record if and only if it is a way of writing that record: any token digits, any escapes, any nesting, either prompt, a named or unnamed progress; whatever writes no record is refused |
| `MiGrammar.ValueReads` | crates/samdebug-debug/src/mi.rs:250-293 | every way of writing a value is read as that value, leaving what follows |
| `MiGrammar.ValueWritten` | crates/samdebug-debug/src/mi.rs:250-293 | whatever is read as a value was a way of writing it |
| `MiGrammar.TokenTooLarge` | crates/samdebug-debug/src/mi.rs:113-131 | digits that exceed 64 bits are refused as a token, whatever follows |
| `MiGrammar.TextNotUtf8` | crates/samdebug-debug/src/mi.rs:295-309 | a complete stream string that is not UTF-8 is refused as such |
| `Utf8.ValidIff` | crates/samdebug-debug/src/mi.rs:295-309 | a byte string is accepted if and only if it encodes a sequence of Unicode scalar values |
| `MiStream.MiStreamParser.Push` | crates/samdebug-debug/src/mi.rs:62-93 | hands out the records of the complete lines and keeps the rest, bounded by 1 MiB; on an error the records of the call are lost and the bytes after the bad line stay pending, unless a line is too large, when nothing stays |
| `MiStream.MiStreamParser.Finish` | crates/samdebug-debug/src/mi.rs:95-105 | accepts exactly when nothing is pending, and clears it otherwise |
| `MiStream.FeedIsDrain` | crates/samdebug-debug/src/mi.rs:62-93 | pushing chunks until the first error gives the whole stream's verdict and error, and on success its records and rest |
| `MiStream.CuttingIsIrrelevant` | crates/samdebug-debug/src/mi.rs:62-105 | two ways of cutting one stream agree on verdict, error, records and `finish` |
| `MiStream.FailingPushDrops` | crates/samdebug-debug/src/mi.rs:62-93 | when a push fails, exactly the records of the chunks before it were delivered |
| `MiStream.AllDeliveredIff` | crates/samdebug-debug/src/mi.rs:62-93 | all records before the first error arrive if and only if the failing chunk completed none |
| `MiStream.PromptLost` | crates/samdebug-debug/src/mi.rs:62-93 | a good and a bad line: in one chunk the record is lost, in two it is delivered |
| `MiStream.DrainByLines` | crates/samdebug-debug/src/mi.rs:62-93 | the stream is judged line by line; a line is too large exactly when its content exceeds 1 MiB |
| `MiStream.LineJudged` | crates/samdebug-debug/src/mi.rs:72-86 | one line, without its carriage return: nothing when empty, else UTF-8 and a record, or refused as either |
| `MiWire.WireRoundTrip` | crates/samdebug-debug/src/mi.rs:54-188 | any fragmentation of rendered records, in any forms and with either line ending, delivers exactly those records and leaves nothing unfinished |
| `MiWire.ReadStdout` | crates/samdebug-debug/src/gdb_process.rs:372-408 | the reader thread sends the records of the accepted chunks, then its ending, and cancels exactly on a failure |
| `Transport.GdbMiProcess.DrainPending` | crates/samdebug-debug/src/gdb_process.rs:151-171 | hands out all that has arrived, or consumes and reports the first unusable item, or reports that no reader is left |
| `Transport.GdbMiProcess.WriteCommand` | crates/samdebug-debug/src/gdb_process.rs:97-111 | writes one line, or refuses a command with a line break |
| `Transport.GdbMiProcess.Command` | crates/samdebug-debug/src/gdb_process.rs:181-258 | succeeds exactly when the process is open, the drain clean, the line written and enough arrives in time, and says which error it gives otherwise; the output carries the result of the command just written under a token no earlier line has; a waiting call also saw a stop after the write, and no other call reports one; batches stay a prefix of what was delivered |
| `Transport.GdbMiProcess.WaitForStop` | crates/samdebug-debug/src/gdb_process.rs:270-311 | succeeds if and only if a stop arrives, after nothing but usable items, before a cancellation, the deadline or a hang-up; the batch ends with that stop and holds no other; otherwise the error is that of the first unusable item, of the drain after a cancellation or the interruption, of the deadline, or the end of GDB |
| `Transport.GdbMiProcess.PollRecords` | crates/samdebug-debug/src/gdb_process.rs:313-315 | hands out what has arrived, keeping the concatenation of batches a prefix |
| `Transport.UnusableIff` | crates/samdebug-debug/src/gdb_process.rs:151-171 | an item is unusable exactly when it is an error or tells that the thread group exited or the connection was removed, and which failure that is |
| `Transport.GdbMiProcess.Shutdown` | crates/samdebug-debug/src/gdb_process.rs:260-268 | writes the exit request under the next token, or repeats the last possible one, and reports the reaping only |
| `Transport.CommandForEvery` | crates/samdebug-debug/src/gdb_process.rs:181-258 | in a history of increasing tokens every command is the one its token belongs to |
| `Transport.CommandForStable` | crates/samdebug-debug/src/gdb_process.rs:181-258 | later lines never change which command a token belongs to, so late results stay harmless |
| `Transport.StopFollowsResultIff` | crates/samdebug-debug/src/gdb_process.rs:198-250 | in what a waiting call concludes from, a stop follows the result if and only if none precedes it after the write; otherwise the batch ends with the result |
| `Transport.StopBeforeResult` | crates/samdebug-debug/src/gdb_process.rs:198-250 | a stop and then the result satisfy a waiting call |
| `SessionModel.StaleStopDecides` | crates/samdebug-debug/src/session.rs:906-930 | the first stop of a batch decides; one queued earlier hides the command's own |
| `SessionModel.StaleStopHides` | crates/samdebug-debug/src/session.rs:906-930 | a queued breakpoint stop makes the end of a step look like a breakpoint |
| `SessionAnswers.FirstStop` | crates/samdebug-debug/src/session.rs:906-930 | the details of a batch are reason and frame of its first stopped record |
| `SessionAnswers.StopReasons` | crates/samdebug-debug/src/session.rs:914-922 | GDB's stop reasons in the engine's words; any other is kept, a missing one is unknown |
| `SessionAnswers.FrameIsRead` | crates/samdebug-debug/src/session.rs:890-904 | a frame is read back from the fields that describe it, a full name going before a file name |
| `SessionAnswers.NoFrame` | crates/samdebug-debug/src/session.rs:890-898 | no tuple, no level or a level over 32 bits: no frame |
| `SessionAnswers.CommandErrorIff` | crates/samdebug-debug/src/session.rs:961-984 | a refused command is a lost target exactly when the first message of its answer says so, in letters of either case |
| `SessionAnswers.VerifiedIff` | crates/samdebug-debug/src/session.rs:603-621 | a verification affirms exactly when its joined console and log texts speak of a match and of no mismatch or failure |
| `SessionAnswers.RefutingRecord` | crates/samdebug-debug/src/session.rs:603-621 | one refuting record is enough, wherever it stands |
| `SessionAnswers.GdbLines` | crates/samdebug-debug/src/session.rs:603-621 | the line GDB prints for a matching section affirms, the one for a mismatch does not |
| `SessionAnswers.TargetLossIff` | crates/samdebug-debug/src/debug_server.rs:360-366 | which lines of OpenOCD tell of a lost target |
| `SessionEngine.SessionEngine.Perform` | crates/samdebug-debug/src/session.rs:229-728 | every public operation leaves exactly the state, events, calls and outcome of its specification |
| `SessionEngine.SessionEngine.CaptureRecords` | crates/samdebug-debug/src/session.rs:770-789 | each target, console and log record becomes one event, in order |
| `SessionPlays.EngineFollowsScript` | crates/samdebug-debug/src/session.rs:229-728 | from any settled session and against any transport every operation plays its script: the lines it sends and whether it waits, the events it tells and in which order, the calls it makes, its state and its result, including the error of every refusal |
| `SessionPlays.RunsFollowScripts` | crates/samdebug-debug/src/session.rs:229-728 | so does every operation of every run |
| `SessionPlays.ProbeAndGeneration` | crates/samdebug-debug/src/session.rs:244-345 | the generation changes exactly with a start that gets through its checks, the probe with that, with a connection and with the end |
| `SessionPlays.LoadVerification` | crates/samdebug-debug/src/session.rs:597-636 | after an accepted download and comparison, a record that speaks of a mismatch or failure in letters of either case, or no talk of a match, ends the load as FIRMWARE_VERIFY_FAILED without Loaded; otherwise it goes on to the reset |
| `SessionScripts.QuoteIsOneLine` | crates/samdebug-debug/src/session.rs:945-959 | a quoted path never breaks the line of its command |
| `SessionRuns.FinishStopKeeps` | crates/samdebug-debug/src/session.rs:696-728 | a stop is announced exactly once, whatever becomes of the frame query, and leaves the engine halted |
| `SessionRuns.LoadKeeps` | crates/samdebug-debug/src/session.rs:576-636 | Loaded appears exactly when the authorisation names this session's probe and download, affirmative verification, reset and frame all succeeded; otherwise the engine is halted without it |
| `SessionRuns.LoadScript` | crates/samdebug-debug/src/session.rs:576-636 | an authorised load sends download, compare-sections, reset and frame query, in this order and nothing else, up to the first that is not accepted |
| `SessionRuns.EngineRuns` | crates/samdebug-debug/src/session.rs:229-400 | in every run against any transport the State events are one path of documented edges to the current state, no operation returns in a passing state, shutdowns equal session ends, and text events equal the texts of the batches in order |
| `SessionRuns.RefusedUntouched` | crates/samdebug-debug/src/session.rs:812-821 | a refused operation issues no command and changes neither state nor events |
| `SessionRuns.ReachesTransportIff` | docs/architecture.md:68-76 | an operation reaches the transport if and only if its state, arguments and authorisation are accepted |
| `SessionRuns.IdleIsFinal` | crates/samdebug-debug/src/session.rs:638-694 | nothing follows the end of a session until it is started again |
| `SessionRuns.ResetHaltAnnounces` | crates/samdebug-debug/src/session.rs:366-400 | from halted or running, a reset-halt is announced exactly when the reset is accepted and a frame confirmed, and leaves the engine halted exactly when the reset was accepted or it was halted before |
| `SessionRuns.EndsOnce` | crates/samdebug-debug/src/session.rs:638-694 | without a restart a session ends exactly once, and exactly when the engine is idle |
| `StopBalance.EveryHaltIsAnnounced` | crates/samdebug-debug/src/session.rs:366-400 | in every run as many Stopped events as changes into Halted, plus the reset-halts that confirm a halted target, minus those that halt a running one unconfirmed |
| `StopBalance.StopsBalance` | crates/samdebug-debug/src/session.rs:696-728 | the same from any state that a run can reach, session taken over or not |
| `EngineTransport.Replay` | crates/samdebug-debug/src/gdb_process.rs:181-315 | a process serves any sequence of calls one after the other: each that succeeds hands on all the records it has read |
| `EngineTransport.ShownIsDelivered` | crates/samdebug-debug/src/session.rs:770-789 | over a process that serves its calls a run shows the texts of what was handed on, once and in order; without a failed call these are the texts of a prefix of what GDB delivers, of all that was read |
| `OwnedSession.GenerationCounter.Take` | crates/samdebug-debug/src/owned_session.rs:577-589 | generations grow, never reach zero again, and run out with an error |
| `OwnedSession.LaunchWithEventSink` | crates/samdebug-debug/src/owned_session.rs:87-194 | publishes exactly the specified events and hands over a connected engine or cleans up |
| `OwnedSession.OwnedDebugSession.ExecuteOp` | crates/samdebug-debug/src/owned_session.rs:333-372 | an operation behind a poll and a server check, with the cleanup its error calls for; server and supervisor go with the session |
| `OwnedSession.OwnedDebugSession.SynchronizeSupervisor` | crates/samdebug-debug/src/owned_session.rs:380-405 | a set flag ends a live session as cancelled or failed, with the diagnosed cause |
| `OwnedSession.OwnedDebugSession.TakeEvents` | crates/samdebug-debug/src/owned_session.rs:206-224 | hands over every event once, then what the log has gained |
| `OwnedModel.LaunchPath` | crates/samdebug-debug/src/owned_session.rs:87-194 | what a launch publishes is one State path from Idle; a failed launch that published anything ends it once, a successful one has a halted engine |
| `OwnedModel.OwnedRun` | crates/samdebug-debug/src/owned_session.rs:333-419 | sink events followed by engine events stay one connected path through any requests; a session ends at most once and idle is never left |
| `OwnedModel.ExecuteSurvivesIff` | crates/samdebug-debug/src/owned_session.rs:333-372 | a session survives an operation exactly when poll and server check pass and the outcome is neither interrupted nor fatal |
| `OwnedScripts.ExecuteDecides` | crates/samdebug-debug/src/owned_session.rs:333-372 | result and end of every operation of a live session: failed poll, dead server, requested and unrequested interruption with the cause to blame, deadly error, anything else passed on; and the events of each end |
| `OwnedScripts.FlagDecides` | crates/samdebug-debug/src/owned_session.rs:380-405 | a set flag ends the session as cancelled if the user asked, otherwise as failed for the cause to blame |
| `OwnedScripts.EarlyLaunch` | crates/samdebug-debug/src/owned_session.rs:87-150 | a launch that ends before the engine is there: its error and its events |
| `OwnedScripts.LateLaunch` | crates/samdebug-debug/src/owned_session.rs:150-194 | a launch whose GDB has started is its connection; a failed one is blamed on the log, then on the supervisor, then on itself, and closed as cancelled or failed |
| `Supervision.FlagIsExplained` | crates/samdebug-debug/src/owned_session.rs:608-680 | a set flag has a published cause unless a fatal line met a full log; a finished supervisor implies the flag and both children reaped |
| `Supervision.CulpritIsDead` | crates/samdebug-debug/src/owned_session.rs:608-680 | in every interleaving whoever the supervisor blames is dead |
| `Supervision.DeathIsNoticed` | crates/samdebug-debug/src/owned_session.rs:608-680 | a dead child is blamed, GDB before the server, and the flag raised, in the supervisor's next round; a round with nothing to find changes nothing |
| `Supervision.StoredLineIsDiagnosed` | crates/samdebug-debug/src/debug_server.rs:327-375 | a fatal line that was stored is found again in the whole log |
| `Supervision.FullLogHidesCause` | crates/samdebug-debug/src/debug_server.rs:327-346 | once the log is full, a fatal line raises the flag and leaves no cause |
| `Supervision.FullLogIsReachable` | crates/samdebug-debug/src/debug_server.rs:327-346 | that state is reachable |
| `Supervision.JoinEnds` | crates/samdebug-debug/src/owned_session.rs:374-378 | once the owner waits, seven steps of the supervisor finish it whatever runs in between |
| `OwnerRace.CancelledIff` | crates/samdebug-debug/src/owned_session.rs:333-372 | from every point of an operation, some interleaving reports a requested cancellation if and only if nothing stands in the way: an error, a hang-up or a stop to be queried in the queue, a dead server, a command that is complete with no call to follow |
| `OwnerRace.HearsEnoughIff` | crates/samdebug-debug/src/gdb_process.rs:198-250 | the interleaved waiting loop has enough exactly when the transport's command is satisfied |
| `OwnerRace.OpWithinPlan` | crates/samdebug-debug/src/session.rs:315-636 | no operation makes more calls than its plan counts |
| `OwnerRace.KilledGdbIsSeenFirst` | crates/samdebug-debug/src/owned_session.rs:333-345 | before the poll, the end of the killed GDB's output may come first, and then the operation ends with its error |
| `OwnerRace.RequestIsReported` | crates/samdebug-debug/src/owned_session.rs:25-29 | a user who asks before the poll of a quiet session can be told so |
| `OwnerRace.RequestIsNotBlamed` | crates/samdebug-debug/src/owned_session.rs:333-372 | whoever asked before the decision is never told of a cause instead, in any interleaving |
| `OwnerRace.CauseIsPublished` | crates/samdebug-debug/src/owned_session.rs:341-360 | in every run from the start: reported as cancelled only if requested; a reported cause is the diagnosed or the published one, or a fatal line was dropped, the token came from outside or a reader's error is still queued; DEBUG_TRANSPORT_FAILED only in these cases |
| `OwnerRace.CausePublishedIff` | crates/samdebug-debug/src/owned_session.rs:341-360 | an undisturbed decision names a published cause if and only if there is one |
| `OwnerRace.DecisionIsFinish` | crates/samdebug-debug/src/owned_session.rs:341-360 | the interleaved decision, undisturbed, is the cleanup and outcome of the owner's specification |
| `OwnerRace.UndrainedErrorHidden` | crates/samdebug-debug/src/gdb_process.rs:181-196 | an error queued between the poll and the entry of a command is hidden by the flag; DEBUG_TRANSPORT_FAILED or OPENOCD_EXITED is reported |
| `OwnerRace.QueryInterruptsIff` | crates/samdebug-debug/src/session.rs:229-243 | with the flag up, whoever raised it, a poll ends the operation as interrupted if and only if it has to ask for the frame of a stop |
| `OwnerRace.ExitReportedAsInterruption` | crates/samdebug-debug/src/session.rs:229-243 | a run in which a published exit of OpenOCD is reported as an interruption nobody asked for |
| `MakeRules.ParseMakeWords` | crates/samdebug-project/src/pipeline.rs:870-892 | the words of a rule, read in one pass |
| `MakeRules.RuleRoundTrip` | crates/samdebug-project/src/pipeline.rs:835-851 | reading a rule as GCC writes it, with blanks, tabs, hashes, continued lines and phony targets, gives the listed names with dollar signs doubled: exactly the names if and only if none holds one |
| `BuildOutputs.StemsDiffer` | crates/samdebug-project/src/pipeline.rs:54-62 | two sources of a plan never share an output name |
| `BuildOutputs.OutputsDistinct` | crates/samdebug-project/src/pipeline.rs:60-62 | object, dependency file and stamp are three files, and no two slots share one |
| `BuildOutputs.OutputNames` | crates/samdebug-project/src/pipeline.rs:56-62 | the three names: the index in at least four digits, the base name and the kind |
| `BuildOutputs.StagingForgotten` | crates/samdebug-project/src/pipeline.rs:122-135 | the stamp does not depend on the staging directory |
| `BuildOutputs.IdentityDetermines` | crates/samdebug-project/src/pipeline.rs:538-546 | equal identities mean the same compiler path and bytes |
| `BuildCache.IsCurrent` | crates/samdebug-project/src/pipeline.rs:817-868 | the check as code: stamp, dependency file, then the inputs in order |
| `BuildCache.BuildDirectory.CompileSource` | crates/samdebug-project/src/pipeline.rs:145-159 | a compilation replaces all three outputs or, on a failure, none |
| `BuildCache.BuildDirectory.Build` | crates/samdebug-project/src/pipeline.rs:54-164 | the loop over the sources with its counters, failures and cancellation |
| `BuildHistory.CheckFailsIff` | crates/samdebug-project/src/pipeline.rs:852-866 | the check fails exactly when a missing input comes before every newer one |
| `BuildHistory.CurrentIff` | crates/samdebug-project/src/pipeline.rs:817-868 | a slot is current exactly when its stamp fits and every listed input is there and not newer than the object |
| `BuildHistory.CurrentByNames` | crates/samdebug-project/src/pipeline.rs:817-868 | with a dependency file as GCC writes it, a slot is current exactly when its stamp fits and the source and, for every listed name, the file (the name itself behind a slash, otherwise below the project root) are there and not newer |
| `BuildHistory.SourceTurn` | crates/samdebug-project/src/pipeline.rs:54-162 | one turn of the loop: which failure each obstacle gives, when a slot is reused, and which three files a compilation leaves |
| `BuildHistory.JobOfStamp` | crates/samdebug-project/src/pipeline.rs:122-135 | the stamp of a slot fits one job only: equal stamps mean equal compilations |
| `BuildHistory.ReuseIsFresh` | crates/samdebug-project/src/pipeline.rs:136-144 | in a sound cache a reused object is what a compilation would give now |
| `BuildHistory.BuildSound` | crates/samdebug-project/src/pipeline.rs:54-162 | a build keeps the cache sound whatever its outcome, and leaves a fresh object for every source it passed |
| `BuildHistory.BuildSucceedsIff` | crates/samdebug-project/src/pipeline.rs:54-162 | a build succeeds exactly when the compiler accepts every source and no check meets a missing input first |
| `BuildHistory.IncrementalSucceedsIff` | crates/samdebug-project/src/pipeline.rs:54-162 | it succeeds exactly when the clean build does and nothing listed is missing first, and else fails with DEPENDENCY_MISSING |
| `BuildHistory.IncrementalIsClean` | crates/samdebug-project/src/pipeline.rs:54-162 | an incremental and a clean build agree on the bytes of every object |
| `BuildHistory.NothingToDo` | crates/samdebug-project/src/pipeline.rs:136-144 | building again with nothing changed compiles nothing and leaves the disk alone |
| `BuildHistory.CrashSound` | crates/samdebug-project/src/pipeline.rs:154-158 | a build that dies safely, by what is on the disk, keeps the whole cache sound; an old dependency file that lists more than the new one is safe |
| `BuildHistory.HistorySound` | crates/samdebug-project/src/pipeline.rs:29-162 | every history of edits, removals, plan and compiler changes, builds and safe crashes leaves a sound cache |
| `BuildHistory.EveryBuildIsClean` | crates/samdebug-project/src/pipeline.rs:29-162 | after any such history a successful build leaves in every object what a build from scratch leaves |
| `BuildCrash.CrashSoundIff` | crates/samdebug-project/src/pipeline.rs:154-158 | dying after some promotions is safe, by stamp, dependency file and files present, if and only if no compiler that the disk could come from and no later change of files makes a build reuse a wrong object |
| `BuildCrash.ChangeNoticedIff` | crates/samdebug-project/src/pipeline.rs:817-868 | any change of files is noticed if and only if it touches a listed one |
| `BuildCrash.UnnoticedChangeIff` | crates/samdebug-project/src/pipeline.rs:817-868 | after a change that leaves the slot current, reuse is right for every compiler that can have made the object and depends on nothing but listed contents and the existence of the paths it looked for, if and only if each of these paths exists as it did |
| `BuildWitness.ToyFaithful` | crates/samdebug-project/src/pipeline.rs:835-868 | a small compiler, with rules in GCC's form that name a header relative to the project root and with quoted stamps, meets everything that is asked of compilers |
| `BuildWitness.IncludedLate` | crates/samdebug-project/src/pipeline.rs:154-158 | an inclusion whose build dies after the object, and a later change of the included file, mislead the same job, for any compiler that gives another object |
| `BuildWitness.LateIncludeMisleads` | crates/samdebug-project/src/pipeline.rs:154-158 | a run in which that happens |
| `BuildWitness.RevertMisleads` | crates/samdebug-project/src/pipeline.rs:154-158 | a run in which going back to the old flags reuses the object of the new ones |
| `BuildWitness.RemovedHeaderBlocks` | crates/samdebug-project/src/pipeline.rs:852-866 | a run in which the clean build succeeds and the incremental one fails |
| `BuildWitness.NewHeaderMisleads` | crates/samdebug-project/src/pipeline.rs:817-868 | a compiler and a run in which a header that comes to be found is not noticed |
| `BuildWitness.PeekSearches` | crates/samdebug-project/src/pipeline.rs:817-868 | that compiler looks at nothing unlisted but whether the header exists |
| `Extract.Staging.ExtractAll` | crates/samdebug-tools/src/installer.rs:439-536 | the extraction loop and the deferred links, with the tree and the failure they end in |
| `ArchiveTree.MakeDirsFailsIff` | crates/samdebug-tools/src/installer.rs:484-500 | directories cannot be created exactly when a file is in the way |
| `ExtractResult.EntriesWithin` | crates/samdebug-tools/src/installer.rs:439-512 | after any number of entries, failed or not, the staged bytes are within the limit |
| `ExtractResult.LinksWithin` | crates/samdebug-tools/src/installer.rs:514-532 | so they are after any number of links, and nothing already there changes |
| `ExtractResult.EntriesFaithful` | crates/samdebug-tools/src/installer.rs:439-512 | the accepted entries are all there, nothing else is, and no file was asked for twice |
| `ExtractResult.LinksFaithful` | crates/samdebug-tools/src/installer.rs:514-589 | each link output is a file of its own with its target's contents; targets are earlier files |
| `ExtractResult.ExtractionFaithful` | crates/samdebug-tools/src/installer.rs:439-536 | a successful extraction is exactly the archive, of at most 200,000 entries and the limit's bytes |
| `ExtractResult.MissingTargetRefused` | crates/samdebug-tools/src/installer.rs:514-532 | a link to something missing or made only later refuses the archive |
| `ExtractExact.ExtractsIff` | crates/samdebug-tools/src/installer.rs:439-536 | an archive of files, directories and links below its root is extracted if and only if it has at most 200,000 entries, every link names a file or earlier link, no file has another's name or lies where a directory is needed, and everything fits the limit; then every file and link copy is at its name below the root, with its bytes and mode, directories are where they are needed, and nothing else is there |
| `ExtractExact.OnlyAdmissible` | crates/samdebug-tools/src/installer.rs:474-512 | an entry that does not start with the root, has an irregular part, links to such a path or is of another kind refuses the archive |
| `ExtractExact.FileLands` | crates/samdebug-tools/src/installer.rs:634-647 | a file of an extracted archive is at its name without the root |
| `InstallRuns.PublishedIsValid` | crates/samdebug-tools/src/installer.rs:224-245 | a checked tree published with its marker passes the validity check |
| `InstallRuns.OkMeansValid` | crates/samdebug-tools/src/installer.rs:184-255 | after any history of installs, crashes and outside changes, success means the destination's inventory is the one its marker lists for this artifact's hash |
| `InstallRuns.OkMeansComplete` | crates/samdebug-tools/src/installer.rs:184-283 | without outside changes, success means the destination is file for file an extraction of an archive with that hash, and cached archives have the hash in their name |
| `InstallRuns.StagingWithinLimit` | crates/samdebug-tools/src/installer.rs:220-232 | in every run the staging directory being filled stays within the limit |
| `InstallRuns.CrashStrandsArchive` | crates/samdebug-tools/src/installer.rs:285-301 | stranded expanded archives grow by one exactly with each crash while unpacking |
| `InstallRuns.StrandedForGood` | crates/samdebug-tools/src/installer.rs:285-301 | through any further history what is stranded stays |
| `InstallRuns.StrandingHappens` | crates/samdebug-tools/src/installer.rs:285-301 | a first download cut off while it unpacks, from an empty disk |
| `InstallRuns.IsValidFailsIff` | crates/samdebug-tools/src/installer.rs:730-758 | the check fails if and only if the marker cannot be read, or fits while a part is missing, no file or not runnable, or something in the tree cannot be listed; it accepts if and only if everything is there as listed |
| `InstallRuns.NeverRepaired` | crates/samdebug-tools/src/installer.rs:730-758 | such a destination, or one that is no directory, is never changed and never installed over, by any number of installs of its artifact |
| `InstallRuns.InterruptedUpgradeStrands` | crates/samdebug-tools/src/installer.rs:191-200 | installing another archive of the same name and version, cut off during removal, leaves such a destination for the release it was removing |
| `InstallerCode.Installer.InstallOne` | crates/samdebug-tools/src/installer.rs:184-255 | the code takes only steps of the protocol, ends with the outcome its findings determine, leaves the published tree, nothing or the old destination accordingly, and no staging directory, partial download or expanded archive |
| `InstallerCode.Installer.ObtainArchive` | crates/samdebug-tools/src/installer.rs:202-218 | a cached or downloaded archive is used only when its hash is the artifact's |
| `InstallerCode.InstallsIff` | crates/samdebug-tools/src/installer.rs:184-255 | with a good archive an install succeeds if and only if the destination is not beyond repair, nor intact with executables of another version |
| `InstallExact.AcceptedIff` | crates/samdebug-tools/src/installer.rs:730-758 | what is there is accepted if and only if its marker is of schema 2 and this release, every part is there, everything can be listed and the marker lists it |
| `InstallExact.ReplacedIff` | crates/samdebug-tools/src/installer.rs:730-758 | it is replaced if and only if it has no marker, another release's, or files that are not the listed ones |
| `InstallExact.FailsWith` | crates/samdebug-tools/src/installer.rs:730-758 | the error when it can be neither |
| `InstallExact.FirstBadPart` | crates/samdebug-tools/src/installer.rs:649-692 | which of several bad parts is reported, and as what |
| `InstallExact.RunnableIff` | crates/samdebug-tools/src/installer.rs:669-676 | an executable needs any of the three execute bits |
| `InstallExact.OutcomeIff` | crates/samdebug-tools/src/installer.rs:184-255 | an install anew succeeds if and only if what is there is to be replaced and not in the way, and the cache or the download supplies an archive of the hash that extracts to an installable tree; nothing is done if and only if what is there is accepted with the right versions |
| `InstallExact.PublishedIsInstalled` | crates/samdebug-tools/src/installer.rs:224-245 | what is published is that tree with a marker that lists it |
| `AgentFraming.ReadBoundedLine` | crates/samdebug-cli/src/agent.rs:527-567 | for any buffer boundaries, the next line of the stream and what is left of it; never more than 1 MiB held |
| `AgentFraming.ReadLines` | crates/samdebug-cli/src/agent.rs:207-217 | the reading thread sends the lines of the stream up to the end |
| `AgentFraming.FramingIsSplitting` | crates/samdebug-cli/src/agent.rs:527-567 | for every stream that is its newline split: oversized lines in their place, one carriage return stripped, an unterminated tail kept, then the end |
| `AgentFraming.RequestsArrive` | crates/samdebug-cli/src/agent.rs:527-567 | requests sent one to a line with either line ending arrive unchanged |
| `AgentFraming.OneLineRead` | crates/samdebug-cli/src/agent.rs:527-567 | what one line of any content becomes: too large over a mebibyte, kept without its carriage return exactly when it is UTF-8 |
| `AgentFraming.LastLineRead` | crates/samdebug-cli/src/agent.rs:527-567 | the same for a last line without newline, which counts only when the input is closed properly |
| `AgentFraming.FramedLinesFit` | crates/samdebug-cli/src/agent.rs:304-306 | the protocol's own size check never fires on framed lines |
| `AgentRuns.KeyInjective` | crates/samdebug-cli/src/agent.rs:586-598 | two valid ids with one key are the same id |
| `AgentRuns.EveryLineIsAnswered` | crates/samdebug-cli/src/agent.rs:296-357 | exactly one answer for each line, last, to the request that can be read or recovered from it; at most one call, for that id |
| `AgentAnswers.RequestIsServed` | crates/samdebug-cli/src/agent.rs:296-518 | a request with a new id that asks something of the session, or starts the first one, has exactly that call made once, and its failure is the answer's; firmware only with an authorisation for firmware.load |
| `AgentAnswers.RequestIsRefused` | crates/samdebug-cli/src/agent.rs:296-518 | any other request is refused for the reason it gives, with no call and the session as it was |
| `AgentAnswers.OtherLines` | crates/samdebug-cli/src/agent.rs:296-331 | a line that carries no request is answered to whoever can be made out, otherwise by a protocol error, and does nothing |
| `AgentAnswers.UsedIff` | crates/samdebug-cli/src/agent.rs:333-343 | an id counts as used if and only if some line so far was a request that carried it |
| `AgentRuns.AnswersMatchLines` | crates/samdebug-cli/src/agent.rs:205-276 | in every conversation as many answers as lines |
| `AgentRuns.StreamIsAnswered` | crates/samdebug-cli/src/agent.rs:205-276 | from bytes to answers: one for each line of the newline split |
| `AgentRuns.NeverTwice` | crates/samdebug-cli/src/agent.rs:333-343 | no id is executed twice in any conversation |
| `AgentRuns.OneSession` | crates/samdebug-cli/src/agent.rs:360-518 | at most one live session, always the one in the slot; loads only under a firmware.load authorisation |
| `AgentRuns.Serve` | crates/samdebug-cli/src/agent.rs:205-276 | the loop of the agent: over all that the reading thread sends, as many answers as lines, no id executed twice, one session at a time |
| `OptionList.Tokenize` | crates/samdebug-project/src/importer.rs:831-865 | the tokens of a list, or an error for an open quote or escape |
| `OptionList.TokensNotEmpty` | crates/samdebug-project/src/importer.rs:831-865 | no token is empty |
| `OptionList.QuotingInverts` | crates/samdebug-project/src/importer.rs:831-865 | quoted words separated by any white space are read back without the empty ones: the list itself if and only if none is empty |
| `OptionList.AnyWritingInverts` | crates/samdebug-project/src/importer.rs:831-865 | words written in any mixture of bare, single and double quoted pieces are read back as what they mean, without the empty ones |
| `OptionList.PlainOptionsKept` | crates/samdebug-project/src/importer.rs:831-865 | plain options separated by blanks are read as they are |
| `OptionList.EscapeIsLiteral` | crates/samdebug-project/src/importer.rs:831-865 | between double quotes a backslash makes any character an ordinary one |
| `OptionList.OpenEndRefused` | crates/samdebug-project/src/importer.rs:831-865 | an open quote of either kind or an open escape refuses the list |
| `LinkerScript.FlagList.NormalizeLinkerScript` | crates/samdebug-project/src/importer.rs:759-813 | the in-place loop terminates and leaves the specified flags and script |
| `LinkerScript.SweepOkIff` | crates/samdebug-project/src/importer.rs:765-799 | it succeeds exactly when at most one script is named and can be normalised, and which error it gives otherwise |
| `LinkerScript.OneScriptTakenOut` | crates/samdebug-project/src/importer.rs:767-799 | only the flags that name the script are removed, the others keep their order |
| `LinkerScript.SweepClean` | crates/samdebug-project/src/importer.rs:767-799 | at most a bare trailing -T is left |
| `LinkerScript.NoScript` | crates/samdebug-project/src/importer.rs:759-813 | a list that names no script is left alone, a bare -T at its end included |
| `LinkerScript.OneScript` | crates/samdebug-project/src/importer.rs:759-813 | a list that names one script, in one flag or two, loses exactly that, if its name can be normalised and is a file |
| `LinkerScript.TwoScripts` | crates/samdebug-project/src/importer.rs:778-786 | a second script is a conflict |
| `LinkerScript.AllowedIff` | crates/samdebug-project/src/pipeline.rs:513-526 | which linker flags are accepted |
| `LinkerScript.ValidateLinkerFlags` | crates/samdebug-project/src/pipeline.rs:513-526 | accepts exactly the allowed flags and else reports the first that is not |
| `LinkerScript.AcceptedHoldsNoScript` | crates/samdebug-project/src/pipeline.rs:513-526 | accepted flags hold none that starts with -T |
| `Reachability.ReachablePackageIds` | scripts/generate-release-sbom.py:92-102 | exactly the ids to which a chain of packages leads from the root, on every list of packages: cycles, missing dependencies, an unknown root, ids given twice |

## Left out

- Parsing of the replies to breakpoint, stack, variable, register, memory and disassembly requests; an inspection is its
  commands and whether each answer is refused.
- Stack depth of recursive parsing.
- `MiGrammar.AcceptedIff`: says which lines are refused, not with which code; the codes are those of the parsing
  functions that the parser is proved equal to.
- Processes, signals, sockets, port selection and clocks: a deadline, a crash or an answer is a parameter of a step.
- The fixed substring table of `programming.rs` behind fatal log lines: a parameter of the concurrent model.
- JSON, TOML, XML, tar and xz libraries: decoded values and archive entries are given, stamps and markers are serialised
  without loss. JSON results of agent responses are reduced to success or failure.
- `BuildHistory.EveryBuildIsClean`: supposes that the compiler looks at nothing but its arguments and the files it
  lists, which leaves out system headers (not listed by -MMD) and headers that come to hide others; that edits are
  strictly newer than the last build, and that nothing is edited while a build runs.
- `BuildOutputs.IdentityDetermines`: takes the digest to be injective and 64 characters long.
- `MakeRules.RuleRoundTrip`: covers file names without a backslash and without white space other than blanks and tabs,
  and rules in which a colon in a name is not escaped, as newer GCC releases do.
- `BuildCache.BuildDirectory.Build`: supposes that no argument of the plan names the new staging directory, and ends
  before linking; symbolic links, hard-link counts and permissions of outputs,
  and the choice of compiler arguments from plan and source kind, are not part of it.
- `InstallRuns.OkMeansComplete`: file modes are not inventoried by the code and executables are taken not to change the
  tree they run in; the order in which a power loss persists writes is not modelled.
- `Extract.Staging.ExtractAll`: entry sizes equal the bytes read; cancellation between bytes appears only in
  `ExtractResult.CopyWithin`.
- `InstallerCode.Installer.InstallOne`: one artifact; the selection by platform and the manifest checks are not
  modelled.
- `InstallerCode.InstallsIff`: the file system does what it is asked: no MARKER_READ_FAILED or other I/O error from
  permissions, a full disk or obstacles on the way to the destination, which itself is no link. Names below a link to a
  directory count as missing, so that the error code can differ where the code, too, fails.
- `AgentRuns.AnswersMatchLines`: writes to standard output succeed; events that a session emits between two lines, and
  the stop of a live session at the end of the input, are no requests and not part of it.
- `Supervision.JoinEnds`: counts steps, not time.
- `OwnerRace.CancelledIff`: which calls an operation makes is reduced to how many can still follow; a write error, a
  deadline and a refused answer may come at any time. A failing wait for the server's status is not part of it.
- The terminal interface, probe discovery, doctor, programming retries, project initialisation, path clean-up of
  settings, and the other scripts.
- Tcl quoting, whose reader is not part of this model.
