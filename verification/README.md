# Verified models of scrapcode

A Dafny 4.11 project that models the parts of the scrapcode repository that hold
real protocols, state machines or arithmetic, and proves what they promise.
`dafny verify dfyconfig.toml` checks all of it.

| files | what they model |
|---|---|
| `try_language.dfy`, `jump_machine.dfy`, `jump_simulation.dfy` | the TEST_TRY / TEST_CATCH / TEST_FINALLY macros over `sigsetjmp` and one global pointer |
| `session_model.dfy`, `async_session.dfy` | the asynchronous libpq session: a state machine on values, and the intrusive queue on the heap that implements it |
| `decimal.dfy`, `spool_codec.dfy`, `spool_protocol.dfy`, `spool_outcomes.dfy`, `spool_sockets.dfy` | the print spooler: its handshake, the two parties over bounded channels, what their sessions can come to, and the two programs' recv and send loops |
| `crash_fs.dfy`, `secret_store.dfy` | `atomic_overwrite` on a file system that can crash, and the secret store on it |
| `mixed_radix.dfy`, `registry.dfy`, `parse_targets.dfy` | promtorture's target numbering, metric registry and option parser |
| `tally.dfy`, `lock_tracker.dfy` | the LWLock wait and hold tracker and its two-level statistics |
| `bracket_rewriter.dfy` | `replc`, the in-place bracket rewriter |
| `pulse_decoder.dfy` | the RHT03 sensor's pulse decoder |
| `wrappers.dfy` | the option type and the distinctness predicate the others share |

## How the code is read

**Try macros.** `Actual` says what the macros do to any program, with no
restriction; `Simulate` proves that the machine with jump buffers, block
activations and call frames does just that. `Eval` is ordinary structured
exceptions. The comments of `sigjmp_escape_hdr.c` forbid a `return` in a try body;
the two agree on every run that comes to no such return (`NoEscapeIsStructured`),
and for a single try statement exactly when its body does not return
(`CatchExactly`, `FinallyExactly`); `ThrowAfterCall` and `ReturnSkipsFinally` show
what happens otherwise. A throw with a null pointer ends the program: through
`test_re_throw` with an error exit, through `do_a_jump` by following the null
pointer.

**Session.** `async_sample.c` is an unfinished draft that does not compile. The
model takes `QUERY_SENT` for `SESSION_QUEUED`, the callbacks for those of the queue
item, an idle session with an empty queue to stay idle, and a flush to report
either "all flushed" or "would block" (the draft tests `PQflush`'s return codes the
other way round). The result loop stops at a NULL result, as its comment says;
`LoopMustStopAtNull` proves what the text of the loop would do instead. `push` and
`pop` are kept as they are: neither clears an item's `next`. So
`PopQueryQueueItem` proves that an item that puts itself back leaves a well-formed
list if and only if it was alone on the queue; otherwise the list closes into a
ring and the next push fails its assertion. `MainLoop` carries this over whole runs:
the list survives if and only if every pop on the way was safe. `NextPushFails` is
a run of five events that ends in the ring; `MainIsSafe` says that the program's
own queue never meets it. `main` pushes a queue item from its stack without
clearing it, and `PushQueryQueueItem` says what a stale `next` does to the list.
`KillTerminatesExactly` shows that `kill_sessions` does not terminate while the
self-re-enqueueing insert item is queued, although the comment on free callbacks
promises one call per item.

**Spooler.** `lp.py` holds the server and `printserver.py` the client. The protocol
comment describes a null-terminated queue name; the code pads with spaces on the
left and strips, and so does the model. The server takes the first 45 bytes for the
handshake, but nothing limits the name to the 30 bytes of its field or the size to
the 10 of its own. `HandshakeRoundTrip` says exactly when name and size are read
back. The protocol is modelled for handshakes of any length, and what the comment
promises is given with its exact condition, computed from the queue name, the size,
the file and the buffers: `VerdictExactly` (when a client can get a verdict),
`JobIsTheFileExactly` (when the job is then always the announced file),
`DeadlockExactly` (when both parties can be left waiting for each other) and
`ChannelsTakeTurns` (when the directions never overlap). For a handshake of 45 bytes
that announces the file's size the promises hold with any buffer, which is what the
`Fitting` lemmas say; `LongNameCorruptsJob` is a longer name with which the client
is told SUCCESS for a job that is not its file. The client's `main` ignores the
verdict and checks the file's group number where it means its size.

**Secret store.** A crash keeps, for every name changed since the last directory
sync, any entry it has had since then, and leaves any bytes in a file not synced
since its last write. "Old or new" is relative to what was durable before the
call: after an overwrite whose last directory sync failed, the next one may still
fall back to the content before both. `OldOrNewExactly` states when that cannot
happen. The environment provider looks up a variable named `key`, whatever key it
is asked for, and the model keeps that.

**Promtorture.** Go's `int` is 64 bits wide, and the product of the counts may wrap;
the registry is complete if and only if it does not. `AcceptedOptionsWrap` has two
options the parser accepts, one that makes the command panic and one that leaves
the registry without a target.

**Tracker.** The ledger keeps the phase of every process and logs of samples, and
`SinceIsFirstSleep` and `HoldIsLastAcquire` tie its waits and holds to the events of
the trace alone. Sanity checks are on and options fixed for a run. At process exit
the script forgets a process's hold statistics but not its wait statistics
(`WaitStatsOutliveProcess`).

**replc.** The depth characterisation holds for every text; balance matters only for
the warning, which counts brackets without checking their order.

## Model

| member | source | states |
|---|---|---|
| JumpSimulation.MacrosImplementExceptions | c/clang_return_stack_checks/sigjmp_escape_hdr_try.h:24-51 | every run that comes to no return inside a try body, so every run of a program without one, ends on the jump machine with the trace and outcome of structured exceptions, superseded rethrows included, with a null pointer and no jump into a dead frame |
| JumpSimulation.MachineRunsActual | c/clang_return_stack_checks/sigjmp_escape_hdr_try.h:24-51 | for every program whatsoever the machine's verdict and trace are those of Actual, and the pointer is null at exit exactly when Actual says it was restored |
| JumpSimulation.Simulate | c/clang_return_stack_checks/sigjmp_escape_hdr_try.h:24-51 | every statement in every context reaches its continuation, handler, caller or undefined jump as Actual says, leaving older activations' locals untouched |
| JumpSimulation.SimulateThen | c/clang_return_stack_checks/sigjmp_escape_hdr_try.h:24-51 | two statements in a row compose, the second seeing the pointer the first left, dangling or not |
| JumpSimulation.SimulateCall | c/clang_return_stack_checks/sigjmp_escape_hdr.c:7-59 | a return unwinds to the caller and drops every block of the callee |
| JumpSimulation.SimulateCatch | c/clang_return_stack_checks/sigjmp_escape_hdr_try.h:33-37 | a throw in the body runs the handler with the entry pointer; a throw in the handler goes to the enclosing try |
| JumpSimulation.SimulateFinally | c/clang_return_stack_checks/sigjmp_escape_hdr_try.h:39-51 | the finally block runs after a normal end and after a throw, the pending throw is raised again unless the block itself ends abruptly, and it goes wherever the pointer then points |
| JumpSimulation.EnterTry | c/clang_return_stack_checks/sigjmp_escape_hdr_try.h:24-31 | the opening of the macro saves the pointer, fills a fresh buffer with the nonzero arm as target, and installs it |
| JumpSimulation.LeaveTry | c/clang_return_stack_checks/sigjmp_escape_hdr_try.h:46-51 | the end of the macro re-throws when marked and otherwise restores the saved pointer and closes the block |
| JumpSimulation.FinishTry | c/clang_return_stack_checks/sigjmp_escape_hdr_try.h:33-51 | however the second arm ends, the whole try ends as TryEnding says |
| JumpSimulation.OneFinal | c/clang_return_stack_checks/sigjmp_escape_hdr_try.c:7-21 | a program has at most one final configuration |
| JumpSimulation.FinallyAlwaysRuns | c/clang_return_stack_checks/sigjmp_escape_hdr_try.h:39-51 | on the machine a finally block runs exactly once after its body, however that ended, and an uncaught pending throw is an error exit |
| JumpSimulation.HandlerRunsOnThrow | c/clang_return_stack_checks/sigjmp_escape_hdr_try.h:33-37 | on the machine a handler runs exactly once if the body threw and not otherwise |
| JumpSimulation.CleanupThrowSupersedes | c/clang_return_stack_checks/sigjmp_escape_hdr_try.h:39-51 | a throw in a finally block takes the place of the pending one and is still caught outside |
| JumpSimulation.ThrowAfterCall | c/clang_return_stack_checks/sigjmp_escape_hdr.c:19-29 | a throw after a call whose body is a try, its arms keeping to the rule inside, jumps into a dead frame if and only if the try body returned, and otherwise ends as the handler and the null pointer say, thrown bodies included |
| JumpSimulation.ReturnSkipsFinally | c/clang_return_stack_checks/sigjmp_escape_hdr.c:42-53 | a return out of a try body skips the finally block and leaves the pointer set |
| TryLanguage.DisciplinedIsStructured | c/clang_return_stack_checks/sigjmp_escape_hdr.c:42-53 | without a return in a try body the macros' behaviour is structured exceptions exactly, for any input |
| TryLanguage.NoEscapeIsStructured | c/clang_return_stack_checks/sigjmp_escape_hdr.c:42-53 | the same for any program on every input whose run comes to no return in a try body |
| TryLanguage.DisciplinedNeverEscapes | c/clang_return_stack_checks/sigjmp_escape_hdr.c:42-53 | a program without such returns has only such runs |
| TryLanguage.CatchExactly | c/clang_return_stack_checks/sigjmp_escape_hdr_try.h:33-37 | when body and handler keep to the rule themselves, a try-catch behaves as it should if and only if its body does not return |
| TryLanguage.FinallyExactly | c/clang_return_stack_checks/sigjmp_escape_hdr_try.h:39-51 | the same for try-finally |
| TryLanguage.ReturnFreeNeverReturns | c/clang_return_stack_checks/sigjmp_escape_hdr.c:19-29 | a body with no return of its own never ends by returning |
| AsyncSession.AppSession.PushQueryQueueItem | postgresql/blog_libpq_pipeline/async_sample.c:149-180 | the asserts hold, the item gets its callback, argument and next ticket and is appended, and the list stays terminated if and only if the item's next pointer was null |
| AsyncSession.AppSession.UnlinkHead | postgresql/blog_libpq_pipeline/async_sample.c:189-195 | the first item leaves a well-formed list and keeps its stale next pointer |
| AsyncSession.AppSession.PopQueryQueueItem | postgresql/blog_libpq_pipeline/async_sample.c:189-198 | the head is freed after unlinking and comes back last with its argument incremented if it re-enqueues itself; the list is well formed afterwards if and only if it does not or was alone, and otherwise a ring |
| AsyncSession.AppSession.InsertQueryFree | postgresql/blog_libpq_pipeline/async_sample.c:559-563 | both asserts hold for an unlinked item, which goes to the back with its argument incremented |
| AsyncSession.AppSession.CallBack | postgresql/blog_libpq_pipeline/async_sample.c:433-449 | the next result goes to the head of the queue |
| AsyncSession.AppSession.DeliverResult | postgresql/blog_libpq_pipeline/async_sample.c:433-461 | one round of the result loop, with the exact condition under which the list survives a NULL |
| AsyncSession.AppSession.DrainResults | postgresql/blog_libpq_pipeline/async_sample.c:421-463 | the loop does what Drain does, never follows a null head, and breaks the list only by an unsafe pop |
| AsyncSession.AppSession.DispatchState | postgresql/blog_libpq_pipeline/async_sample.c:371-464 | the switch refines the state machine and keeps its invariant; a query not yet sent is with the server afterwards if the flush completes, and otherwise stays in the send buffer of a session that waits |
| AsyncSession.AppSession.ServiceSession | postgresql/blog_libpq_pipeline/async_sample.c:339-467 | one turn refines the state machine and keeps its invariant, with the same two outcomes for a query not yet sent |
| AsyncSession.AppSession.HandleEvent | postgresql/blog_libpq_pipeline/async_sample.c:280-329 | one push, server message or turn of the loop refines the state machine, and the list survives it if and only if it pops nothing or pops safely |
| AsyncSession.AppSession.MainLoop | postgresql/blog_libpq_pipeline/async_sample.c:280-329 | over any stretch of pushes, server activity and wake-ups the heap follows the state machine, and the list is well formed at the end if and only if every pop was safe, and otherwise a ring |
| AsyncSession.NextPushFails | postgresql/blog_libpq_pipeline/async_sample.c:166-177 | five events on a fresh session after which the list is a ring and the assertion of the next push is false |
| AsyncSession.AppSession.KillQueue | postgresql/blog_libpq_pipeline/async_sample.c:210-213 | without re-enqueueing items the loop terminates, empties the queue and frees every item once, in order |
| AsyncSession.KillSessions | postgresql/blog_libpq_pipeline/async_sample.c:206-220 | the same for all sessions, last to first |
| SessionModel.RunKeepsInv | postgresql/blog_libpq_pipeline/async_sample.c:371-464 | the invariant (one query in flight, conservation, uncrossed results) holds in every reachable state |
| SessionModel.AtMostOneInFlight | postgresql/blog_libpq_pipeline/async_sample.c:371-464 | in every run at most one query is between queue and results, and it is the head of a nonempty queue |
| SessionModel.ResultsReachTheirItems | postgresql/blog_libpq_pipeline/async_sample.c:433-461 | in every run each result reaches the item that sent its query and the k-th result stream the k-th item enqueued; no callback gets a null item |
| SessionModel.NothingLost | postgresql/blog_libpq_pipeline/async_sample.c:423-449 | in every run the callbacks have seen a prefix of what the server said and the rest is buffered |
| SessionModel.EnqueuesAreConserved | postgresql/blog_libpq_pipeline/async_sample.c:77-79 | in every run enqueues equal frees plus items queued, and each enqueue is freed at most once, in order |
| SessionModel.PollNeverOversleeps | postgresql/blog_libpq_pipeline/async_sample.c:305-315 | after any turn the session has nothing to do, asks to be woken for writing, or the server owes it the end of the query |
| SessionModel.QueryIsSent | postgresql/blog_libpq_pipeline/async_sample.c:377-415 | in every run a turn with an unsent query leaves it in the send buffer and the session queued if the flush would block, has it at the server and the session waiting for results otherwise, and changes nothing else |
| SessionModel.ResultsAreRead | postgresql/blog_libpq_pipeline/async_sample.c:349-352 | in every run a turn with a query at the server hands exactly what was readable to the head of the queue, which is freed if and only if the last of it is the NULL |
| SessionModel.NothingToDo | postgresql/blog_libpq_pipeline/async_sample.c:377-388 | in every run a turn with an empty queue changes nothing |
| SessionModel.WantsWriteExactly | postgresql/blog_libpq_pipeline/async_sample.c:305-315 | in every run the loop asks to be woken for writing exactly while a queued query has not reached the server |
| SessionModel.HeadCompletes | postgresql/blog_libpq_pipeline/async_sample.c:377-461 | in any reachable state with work, two turns and one answer of the server finish the head of the queue |
| SessionModel.KillFreesAll | postgresql/blog_libpq_pipeline/async_sample.c:206-220 | popping a queue without re-enqueueing items frees exactly its items, in order |
| SessionModel.KillTerminatesExactly | postgresql/blog_libpq_pipeline/async_sample.c:206-220 | the loop empties the queue if and only if no queued item re-enqueues itself |
| SessionModel.LoopMustStopAtNull | postgresql/blog_libpq_pipeline/async_sample.c:433-461 | not stopped at NULL, the result loop hands out a null item exactly when no item re-enqueues itself and otherwise never ends |
| SessionModel.RequeueLastIsSafe | postgresql/blog_libpq_pipeline/async_sample.c:552-563 | with the re-enqueueing item last and no further pushes the whole run is safe |
| SessionModel.MainIsSafe | postgresql/blog_libpq_pipeline/async_sample.c:596-628 | the queue that main sets up never meets the ring, in any run without further pushes |
| SessionModel.MainCountsUp | postgresql/blog_libpq_pipeline/async_sample.c:596-628 | in every run of the program the two setup commands go first, and then the queue holds one insert whose value is one more than the inserts completed |
| SessionModel.RingRunIsUnsafe | postgresql/blog_libpq_pipeline/async_sample.c:189-198 | a self-re-enqueueing item with another one behind it is unsafe to pop, and serving its query is the first unsafe event |
| SpoolCodec.HandshakeRoundTrip | scripts/sco_openserver505_replacement_lp/printserver.py:60-61 | the server reads back name and size if and only if the name has at most 30 bytes and no outer white space and the size is from 1 to ten nines |
| SpoolCodec.HandshakeParses | scripts/sco_openserver505_replacement_lp/lp.py:127-135 | a name and size that fit give exactly 45 bytes, understood up to stripping, and a zero size is refused |
| SpoolCodec.ParseExactly | scripts/sco_openserver505_replacement_lp/lp.py:127-135 | any 45 bytes are refused without the magic word, without a number in the size field, or with zero there, and otherwise understood as the stripped name and that number |
| SpoolCodec.StripExactly | scripts/sco_openserver505_replacement_lp/lp.py:131-132 | strip() removes exactly the white space at both ends |
| SpoolCodec.HandshakeLayout | scripts/sco_openserver505_replacement_lp/printserver.py:60-61 | name and size stand at the right of their fields, or in full if longer, with blanks before them |
| Decimal.ValueFromLeft | scripts/sco_openserver505_replacement_lp/lp.py:133-133 | each digit of a numeral counts for its power of ten |
| SpoolProtocol.VerdictIsTruth | scripts/sco_openserver505_replacement_lp/lp.py:87-147 | in every run, whatever the handshake's length, timeouts and lost connections included, a client verdict is the finished server's, the job is what follows the first 45 bytes, as long as they announce, and the verdict is true exactly if that job holds "Cannot get TTY" somewhere or lp took it |
| SpoolProtocol.IgnoredExactly | scripts/sco_openserver505_replacement_lp/lp.py:148-156 | a job is ignored exactly if the message stands in it at some position, so never one of less than 14 bytes |
| SpoolProtocol.MessageIsIgnored | scripts/sco_openserver505_replacement_lp/lp.py:148-156 | a job that holds the message between any two texts is ignored |
| SpoolProtocol.NextDoesWork | scripts/sco_openserver505_replacement_lp/lp.py:107-125 | every step strictly decreases the bytes left to send and to receive |
| SpoolProtocol.RunsEnd | scripts/sco_openserver505_replacement_lp/lp.py:107-125 | every run has at most 26 steps plus two for each byte of the client's messages |
| SpoolProtocol.NextKeepsInv | scripts/sco_openserver505_replacement_lp/printserver.py:40-81 | every send, recv, timeout or abort keeps the two programs in step: each channel holds exactly what has been said and not heard |
| SpoolProtocol.MessagesArriveInOrder | scripts/sco_openserver505_replacement_lp/lp.py:107-125 | in every run what a party has received of its current message is a prefix of it |
| SpoolOutcomes.JobIsTheFileExactly | scripts/sco_openserver505_replacement_lp/printserver.py:60-77 | in every run with a verdict the server holds the announced bytes of the file, if and only if no verdict is possible or those are the bytes the server finds after the first 45 |
| SpoolOutcomes.VerdictExactly | scripts/sco_openserver505_replacement_lp/lp.py:87-147 | some run gives the client a verdict if and only if the first 45 bytes are understood, enough bytes follow them, the rest fits the buffer, and the client can get its whole handshake out |
| SpoolOutcomes.DeadlockExactly | scripts/sco_openserver505_replacement_lp/lp.py:107-125 | some run leaves both parties unable to move, if and only if there is no buffer or both can be sending more than the buffers hold |
| SpoolOutcomes.TimeoutLosesVerdict | scripts/sco_openserver505_replacement_lp/lp.py:90-94 | a timeout may strike the server at any point before it has finished, and then no continuation gives the client a verdict |
| SpoolOutcomes.AbortLosesVerdict | scripts/sco_openserver505_replacement_lp/printserver.py:27-38 | the client may go away at any point before its verdict, and then never has one |
| SpoolOutcomes.ChannelsTakeTurns | scripts/sco_openserver505_replacement_lp/lp.py:107-125 | the two directions never overlap in any run, if and only if the handshake has 45 bytes or is refused, or there is no buffer |
| SpoolOutcomes.NobodyFails | scripts/sco_openserver505_replacement_lp/lp.py:87-105 | when the job the server reads ends where the client's messages do, neither program raises by itself |
| SpoolOutcomes.SessionCompletes | scripts/sco_openserver505_replacement_lp/printserver.py:27-77 | such a session, undisturbed and not jammed, can only stand still once both have the same true verdict and the server everything after the first 45 bytes |
| SpoolOutcomes.BadAnnouncementFails | scripts/sco_openserver505_replacement_lp/lp.py:134-135 | a handshake that is refused, or announces more than will be sent, never yields a verdict or a finished server |
| SpoolOutcomes.FittingVerdictIsTruth | scripts/sco_openserver505_replacement_lp/lp.py:87-147 | with a name and size that fit, a verdict in any run means that the server holds the announced bytes of the file under the client's queue name |
| SpoolOutcomes.FittingSessionCompletes | scripts/sco_openserver505_replacement_lp/printserver.py:27-77 | with these and any buffer an undisturbed session that can go no further has ended with the job byte-identical and a true verdict |
| SpoolOutcomes.FittingNeverJams | scripts/sco_openserver505_replacement_lp/lp.py:107-125 | with these and any buffer there is no deadlock |
| SpoolOutcomes.FittingBadAnnouncementFails | scripts/sco_openserver505_replacement_lp/lp.py:134-135 | with these a zero size or a file shorter than announced never yields a verdict |
| SpoolOutcomes.LongNameCorruptsJob | scripts/sco_openserver505_replacement_lp/printserver.py:60-61 | with a queue name longer than its field an undisturbed run ends with verdict true and a job that is not the file |
| SpoolSockets.Socket.RecvFixedMsg | scripts/sco_openserver505_replacement_lp/lp.py:107-116 | exactly the next n bytes however they are fragmented, or an exception if the stream ends first |
| SpoolSockets.Socket.SendFixedMsg | scripts/sco_openserver505_replacement_lp/lp.py:118-125 | the whole message once, in order, however it is fragmented |
| SpoolSockets.ServerThread.ExpectHandshake | scripts/sco_openserver505_replacement_lp/lp.py:127-135 | accepts exactly 45 bytes or more that begin with the magic word and have a number other than zero in the size field, and sets name and size from them |
| SpoolSockets.ServerThread.ServeJob | scripts/sco_openserver505_replacement_lp/lp.py:137-176 | reads exactly the announced bytes or gives up, and sends SUCCESS exactly for a job that holds the message or that lp took |
| SpoolSockets.ShouldIgnoreJob | scripts/sco_openserver505_replacement_lp/lp.py:148-156 | finds the message at whatever position of the job it stands |
| SpoolSockets.ServerThread.RunSession | scripts/sco_openserver505_replacement_lp/lp.py:87-105 | the session's verdict, everything sent, and the job held, as functions of the bytes received |
| SpoolSockets.SpoolSocket | scripts/sco_openserver505_replacement_lp/printserver.py:27-38 | the client's verdict and everything it sends, from the bytes received: a verdict exactly after READY, an unchanged size and seven more bytes, and true exactly for SUCCESS |
| SpoolSockets.SpoolFile | scripts/sco_openserver505_replacement_lp/printserver.py:60-73 | the same for a given queue and file: the handshake, then the announced bytes if the file still has them |
| SpoolSockets.ProgramsCompose | scripts/sco_openserver505_replacement_lp/printserver.py:27-77 | connected to each other the two programs reach the same verdict whenever the first 45 bytes are understood and enough bytes follow |
| SpoolSockets.ProgramsMatchProtocol | scripts/sco_openserver505_replacement_lp/printserver.py:27-77 | a verdict the protocol gives in any run is the one both programs reach when fed what the other sends |
| CrashFS.OverwriteIsAtomic | python/libsecret_abstraction/secret_store.py:78-103 | from any disk, every state of an overwrite is crash-safe, it returns normally exactly if no step raises (a stale temporary file never blocks it), then the new content is durable; no temporary file is left unless the cleanup fails, and the destination is as before unless the rename is reached |
| CrashFS.OverwriteCleansUp | python/libsecret_abstraction/secret_store.py:85-103 | exactly when a temporary file is left, with the partial or whole content, and no state of an overwrite touches any other file |
| CrashFS.CrashShowsExactly | python/libsecret_abstraction/secret_store.py:78-84 | what a name can show after a crash, exactly: by each entry it may have, no file, its synced data, or any bytes |
| CrashFS.DestinationIsNeverTorn | python/libsecret_abstraction/secret_store.py:78-103 | over any sequence of overwrites, failures and crashes the destination shows a whole content, one of those the history allows |
| CrashFS.EventKeepsOutlook | python/libsecret_abstraction/secret_store.py:78-103 | a normal return leaves one possible content, a failure before the rename none new, a crash exactly the one found |
| CrashFS.OldOrNewExactly | python/libsecret_abstraction/secret_store.py:78-103 | the visible content or the new one after any failure and crash, if and only if the destination could show nothing else at the start |
| CrashFS.StageAdvances | python/libsecret_abstraction/secret_store.py:85-98 | each step of the procedure is enabled and keeps what the next one relies on |
| SecretStore.Disk.AtomicOverwrite | python/libsecret_abstraction/secret_store.py:78-103 | the procedure as written: result, final state, safety of every state it passes through, when the temporary file is left, and all other files untouched |
| SecretStore.Disk.WriteAside | python/libsecret_abstraction/secret_store.py:87-98 | the try body from the exclusive open on |
| SecretStore.Disk.RenameAndSync | python/libsecret_abstraction/secret_store.py:96-97 | the rename publishes synced data and the directory sync makes it the only content |
| SecretStore.Disk.FinallyUnlink | python/libsecret_abstraction/secret_store.py:99-103 | the cleanup removes the temporary file unless it fails, and touches no other name or data |
| SecretStore.YamlConfLookup.Lookup | python/libsecret_abstraction/secret_store.py:120-128 | the secret exactly if the stored map has the key, an error exactly for an empty key or a file that does not load, and nothing otherwise |
| SecretStore.YamlConfLookup.Store | python/libsecret_abstraction/secret_store.py:130-140 | succeeds exactly on valid arguments, a loadable file and no failing step; then the old map with that one key replaced is durable, and no state on the way is unsafe |
| SecretStore.StoreAll | python/libsecret_abstraction/secret_store.py:130-140 | after any sequence of successful stores into a new file each key has the secret stored last, and a key never stored is absent |
| SecretStore.CrashedStore | python/libsecret_abstraction/secret_store.py:130-140 | a crash anywhere in a store, from any disk, leaves a content the destination could show before or the visible map with that key replaced |
| SecretStore.CrashedSettledStore | python/libsecret_abstraction/secret_store.py:130-140 | when the visible map was durable this is the old map or the new one, and all other keys read as before |
| SecretStore.LookupSecret | python/libsecret_abstraction/secret_store.py:218-236 | the first provider's secret, the number of places that have one, and each error case exactly |
| SecretStore.StoreSecret | python/libsecret_abstraction/secret_store.py:238-256 | succeeds exactly if the first provider takes the secret, which then reads back, other keys as before |
| SecretStore.StoreThenLookup | python/libsecret_abstraction/secret_store.py:238-256 | the store succeeds exactly if the first provider (keyring, file or environment) takes the secret, and then the lookup yields it whatever later providers hold, if and only if none of them raises |
| MixedRadix.TargetIndexes | testcases/promtorture/internal/generator/generator.go:25-33 | the loop fills in the digits of the target number |
| MixedRadix.DigitsAreBijective | testcases/promtorture/internal/generator/generator.go:25-33 | each index tuple belongs to exactly one number below the product, its weighted digit sum |
| MixedRadix.DigitsInRange | testcases/promtorture/internal/generator/generator.go:25-33 | every index is below its radix |
| MixedRadix.DigitAt | testcases/promtorture/internal/generator/generator.go:25-33 | the index at i is the number divided by the product of the counts before it, modulo its own count |
| MixedRadix.WeighDigits | testcases/promtorture/internal/generator/generator.go:25-33 | the weighted digit sum recovers the number |
| MixedRadix.SuccessorIsIncrement | testcases/promtorture/internal/generator/generator.go:84-87 | the tuple of n+1 is the odometer increment of the tuple of n, roll-over included |
| MixedRadix.TotalTargets | testcases/promtorture/internal/generator/generator.go:88-93 | the computed total is the product wrapped to 64 bits, and the true one exactly if it fits |
| Decimal.PrintInjective | testcases/promtorture/internal/generator/generator.go:51-51 | different numbers print differently |
| Decimal.PrintExactly | testcases/promtorture/internal/generator/generator.go:51-51 | a number prints as the one numeral of its value without a superfluous zero |
| Registry.TargetLabelsInjective | testcases/promtorture/internal/generator/generator.go:47-54 | different targets have different label tuples |
| Registry.InfoLabelsInjective | testcases/promtorture/internal/generator/generator.go:67-73 | the same with the info labels appended |
| Registry.NewTargetLabels | testcases/promtorture/internal/generator/generator.go:47-54 | the labels are numerals whose values are the target's indexes |
| Registry.LabelsSpellDigits | testcases/promtorture/internal/generator/generator.go:47-54 | label i is the plain decimal numeral of the target number divided by the counts before it, modulo its own |
| Registry.NewInfoLabels | testcases/promtorture/internal/generator/generator.go:67-73 | the target's labels, then t_N_i_K for each extra label |
| Registry.CompleteVectorHolds | testcases/promtorture/internal/generator/generator.go:134-142 | the series of a complete gauge vector are exactly the tuples of plain numerals below the counts, each with the weighted sum of its numbers |
| Registry.InfoVectorHolds | testcases/promtorture/internal/generator/generator.go:56-60 | every info series has value one and the labels of one target |
| Registry.SetValues | testcases/promtorture/internal/generator/generator.go:56-65 | every vector gets exactly this target's entry, with matching label counts |
| Registry.FillVectors | testcases/promtorture/internal/generator/generator.go:134-142 | the loop leaves exactly the targets counted, each gauge with its own number |
| Registry.CreateRegistry | testcases/promtorture/internal/generator/generator.go:82-152 | panics exactly on negative counts or a negative wrapped total; otherwise the label names are numbered through and every vector holds product-many targets if and only if the product fits in 63 bits |
| Registry.RunCommand | testcases/promtorture/cmd/root.go:26-50 | from the option to the registry: refused exactly if an element is, and otherwise as CreateRegistry for the counts it stands for |
| Registry.AcceptedOptionsWrap | testcases/promtorture/cmd/root.go:71-84 | an accepted option whose total is the least 64-bit number and one whose total is zero |
| ParseTargets.ParseTargetList | testcases/promtorture/cmd/root.go:71-84 | accepts exactly lists whose every element is a number from 1 to the 32-bit maximum, reports the first bad element, and yields a nonempty list of positive counts |
| ParseTargets.AcceptedExactly | testcases/promtorture/cmd/root.go:74-80 | an element is accepted exactly if it is a numeral, perhaps with a plus sign, of a value from 1 to the 32-bit maximum |
| ParseTargets.SplitExactly | testcases/promtorture/cmd/root.go:73-73 | the elements are the one way to write the option as comma-free strings joined by commas |
| ParseTargets.PrintedTargetsParse | testcases/promtorture/cmd/root.go:71-84 | any list of positive 32-bit counts written with commas is read back |
| LockTracker.TrackerAgreesWithLedger | postgresql/systemtap/lwlock_stats/lwlock_hold_durations.stp:230-425 | on every legal interleaving no assertion fires and every array says what the ledger says |
| LockTracker.AssertionsNeverFire | postgresql/systemtap/lwlock_stats/lwlock_hold_durations.stp:388-425 | no sanity assertion fires on a legal interleaving |
| LockTracker.WaitIsRecordedOnce | postgresql/systemtap/lwlock_stats/lwlock_hold_durations.stp:352-385 | a completed acquire records one wait, for all processes and for its own if those are kept, completion minus first sleep, under the lock's mode or exclusive for a variable wait, or none if it never slept |
| LockTracker.SinceIsFirstSleep | postgresql/systemtap/lwlock_stats/lwlock_hold_durations.stp:230-260 | a wait in progress dates from its first sleep, however often the process woke |
| LockTracker.HoldIsLastAcquire | postgresql/systemtap/lwlock_stats/lwlock_hold_durations.stp:193-221 | in every trace a lock is held exactly if some acquire of it in that mode has neither been released nor outlived by its process, and the hold dates from the last one |
| LockTracker.HoldIsRecordedOnce | postgresql/systemtap/lwlock_stats/lwlock_hold_durations.stp:202-221 | a release records one hold, from that acquire to the release, or none if there is no such acquire |
| LockTracker.ContentionIsRecorded | postgresql/systemtap/lwlock_stats/lwlock_hold_durations.stp:193-385 | two processes contending for a lock, one waking twice, are legal and leave the hold of the one and the whole wait of the other |
| LockTracker.TablesRollUp | postgresql/systemtap/lwlock_stats/lwlock_hold_durations.stp:540-565 | in every run the all-tranches entry is the merge of the per-tranche entries, in all four tables, through resets and exits |
| LockTracker.TablesDescribeSamples | postgresql/systemtap/lwlock_stats/lwlock_hold_durations.stp:540-590 | in every run each entry of the four tables has the count, sum, least and greatest duration of the samples behind it |
| LockTracker.SamplesForgotten | postgresql/systemtap/lwlock_stats/lwlock_hold_durations.stp:660-681 | besides completions and releases only a summary and a process exit change the samples, and only those they are meant to |
| LockTracker.ExitedProcessIsForgotten | postgresql/systemtap/lwlock_stats/lwlock_hold_durations.stp:449-479 | in every run, after a process has ended nothing but its wait statistics is left of it until an event of that process number occurs again |
| LockTracker.WaitStatsOutliveProcess | postgresql/systemtap/lwlock_stats/lwlock_hold_durations.stp:658-681 | in every run no event removes a per-process wait entry or lowers its count, process exits included |
| LockTracker.DoneKeepsTables | postgresql/systemtap/lwlock_stats/lwlock_hold_durations.stp:352-385 | a completion adds exactly the ledger's sample to the wait tables |
| LockTracker.ReleaseKeepsTables | postgresql/systemtap/lwlock_stats/lwlock_hold_durations.stp:202-221 | a release adds exactly the ledger's sample to the hold tables |
| Tally.TableRollsUp | postgresql/systemtap/lwlock_stats/lwlock_hold_durations.stp:543-545 | in such a table the all-tranches entry is the merge of the others |
| Tally.TableDescribes | postgresql/systemtap/lwlock_stats/lwlock_hold_durations.stp:543-554 | a table has an entry exactly where there are samples, and its four numbers are their count, sum, minimum and maximum |
| Tally.DropTallies | postgresql/systemtap/lwlock_stats/lwlock_hold_durations.stp:671-671 | deleting a process's entries keeps the others exact |
| LockTracker.Arrays.LWLockAcquireStart | postgresql/systemtap/lwlock_stats/lwlock_hold_durations.stp:393-411 | from arrays that agree with the ledger the three assertions hold and the arrays agree with it one event further |
| LockTracker.Arrays.LWLockWaitStart | postgresql/systemtap/lwlock_stats/lwlock_hold_durations.stp:230-260 | the same of the wait-start probe and its assertion |
| LockTracker.Arrays.DoneWaiting | postgresql/systemtap/lwlock_stats/lwlock_hold_durations.stp:352-385 | the same of the completion probe and its assertion |
| LockTracker.Arrays.LWLockDone | postgresql/systemtap/lwlock_stats/lwlock_hold_durations.stp:322-385 | the same of an acquire that ends, as the hold and completion probes together |
| LockTracker.Arrays.LWLockRelease | postgresql/systemtap/lwlock_stats/lwlock_hold_durations.stp:202-221 | the same of the release probe and its assertion |
| LockTracker.Arrays.PostgresEnd | postgresql/systemtap/lwlock_stats/lwlock_hold_durations.stp:660-681 | the same of the two exit probes |
| LockTracker.Arrays.Trace | postgresql/systemtap/lwlock_stats/lwlock_hold_durations.stp:230-425 | over any legal stretch of events no assertion of a probe fires and the arrays end in agreement with the ledger |
| BracketRewriter.Replc | postgresql/string_transform/string_transform.c:11-41 | the in-place loop computes one rewriting pass and the bracket balance that decides the warning |
| BracketRewriter.RewriteAt | postgresql/string_transform/string_transform.c:19-35 | position by position, exactly the brackets of level at most t become braces, for any text |
| BracketRewriter.RewriteTwice | postgresql/string_transform/string_transform.c:19-35 | a second pass sees only what the first left, so levels add up |
| BracketRewriter.ApplyRewritesDeeper | postgresql/string_transform/string_transform.c:19-35 | k applications rewrite exactly the levels up to 2k, balanced or not |
| BracketRewriter.RestoreRecovers | postgresql/string_transform/string_transform.c:19-35 | mapping braces back gives the input if and only if it had none |
| BracketRewriter.BalancedTextRewritten | postgresql/string_transform/string_transform.c:19-38 | on a balanced text the 2k outermost levels turn into braces, partners alike, without a warning |
| BracketRewriter.TreesAreBalancedTexts | postgresql/string_transform/string_transform.c:19-38 | the texts of that theorem are exactly those no prefix of which closes more than it opened and which close all |
| BracketRewriter.WarningCountsBrackets | postgresql/string_transform/string_transform.c:36-38 | there is no warning if and only if the numbers of opening and closing brackets agree, whatever their order |
| PulseDecoder.Sensor.CheckPreBitLowPulse | arduino_avr/RHT03_DHT22_humidity_temp_sensor.c:219-224 | flags exactly the low pulses outside the window |
| PulseDecoder.Sensor.ShiftNextBit | arduino_avr/RHT03_DHT22_humidity_temp_sensor.c:202-214 | shifts in the pulse's bit, or flags an error and returns all ones |
| PulseDecoder.Sensor.ReadNBits | arduino_avr/RHT03_DHT22_humidity_temp_sensor.c:189-199 | reads in bounds, keeps the error flag, and yields the value of the bits |
| PulseDecoder.Sensor.AnalyseTimings | arduino_avr/RHT03_DHT22_humidity_temp_sensor.c:138-187 | the outputs are written if and only if no error was pending, every pulse is in tolerance and the checksum holds; otherwise they are untouched |
| PulseDecoder.Sensor.ReadSensor | arduino_avr/RHT03_DHT22_humidity_temp_sensor.c:78-105 | a frame sent within the tolerances is accepted exactly if its last byte is the sum of the other four, and decodes to its humidity word and sign-magnitude temperature |
| PulseDecoder.Sensor.ReadMeasured | arduino_avr/RHT03_DHT22_humidity_temp_sensor.c:62-105 | any temperature and humidity the sensor can measure, sent in a frame, come out as they were |
| PulseDecoder.FrameCanBeSent | arduino_avr/RHT03_DHT22_humidity_temp_sensor.c:140-159 | every frame has pulses that send it |
| PulseDecoder.FrameArrives | arduino_avr/RHT03_DHT22_humidity_temp_sensor.c:140-171 | pulses anywhere in the windows of a frame's bits carry its words |
| PulseDecoder.OneByteChangeIsDetected | arduino_avr/RHT03_DHT22_humidity_temp_sensor.c:172-178 | a correct frame changed in one byte no longer has a correct checksum |
| PulseDecoder.WordArithmetic | arduino_avr/RHT03_DHT22_humidity_temp_sensor.c:174-182 | the byte casts and sign test on 16-bit ints compute the frame's checksum and sign |

## Left out

- libpq, sockets, `poll()`, `lp`, syslog, temporary-file names, the Prometheus client, libsecret, GPIO: represented as oracles, byte channels or maps.
- Session: memory allocation, connection setup, notification callbacks, the copy of the comment text, and the exits through `error_die`; callbacks that push items other than the one just freed.
- Session: what follows once the list has become a ring; the model stops at the event that closes it.
- The loops of `sample_mainloop` and the listening server are infinite; the models cover every finite stretch of them.
- Try macros: indeterminate non-volatile locals, signal masks and the value passed to `siglongjmp`; uncaught throws end the program.
- Try macros: recursion and procedures by name; a call carries its body.
- `guard.h`: a plain stack of flags whose lemmas would be easier members of the same kind.
- Spooler: send errors inside the socket class (the protocol model has them as aborts), several clients at once, the printer map, and Python's wider notion of what `int()` accepts.
- Secret store: permission checks, path expansion, which providers are usable, concurrent writers, and other names in the directory; YAML load and dump are inverse by construction, and any text not dumped from a map fails to load.
- Tracker: array capacities, printing, application names, blocker search, and changing options during a run.
- Sensor: interrupt timing, the request pulse and serial output; the decoder starts from a filled array.
- Registry: the `promtorture_info` metric, label names' own uniqueness, and running out of memory.
- `replc`: overflow of the depth counter, which would need a text of more than two thousand million brackets.
- Everything else in the repository: demos, configuration and single loops without properties of this kind.
