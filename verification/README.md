# Restart Manager: verified models

`restart-manager` wraps the Windows Restart Manager. The Win32 calls are opaque; what the crate adds are
protocols around them and one parser of native memory. This project models those in Dafny and proves what the
crate is meant to guarantee, for all inputs and over all runs.

| file | what it models |
|---|---|
| `FilterBuffer.dfy`, `LinkedRecords.dfy` | the parser of the native filter list, over bytes, a base address and a target layout |
| `FilterEncoding.dfy`, `Filters.dfy`, `FilterList.dfy` | an encoder, typed filters, and the retry loop around RmGetFilterList with its aligned buffer |
| `AffectedList.dfy`, `WideText.dfy` | the retry loop around RmGetList, fixed-width text fields and the session key |
| `Progress.dfy` | the strict-progress gate, panic capture and the retained outcome of one operation |
| `CallbackLease.dfy` | the process-wide callback slot, with any number of operations and OS callback threads |
| `SessionTrace.dfy` | the discipline of native calls on one session key, and what it means |
| `SessionProtocol.dfy` | owner, cancelling threads, `ended` mutex and reference count as a transition system |
| `Session.dfy` | session handle and recovery typestates as objects that change in place, each a run of that system |
| `AsyncWorker.dfy` | the commands, the worker that executes them in place, and the client's futures |
| `AsyncProtocol.dfy` | client, FIFO channel, worker thread and native session as one transition system |
| `RegistrationLease.dfy` | the application restart registration: objects, and every interleaving of threads |
| `WatchChannel.dfy` | coalesced progress through a watch channel |

How to read it:

- Windows is an oracle. Return codes, buffers and progress samples are parameters, adversarial unless a predicate
  named `Honest` or `Punctual` says otherwise. A session carries the sequence of its native calls.
- Concurrency is a transition system: a datatype of steps, `Enabled` and `Next`, runs as sequences of steps, and an
  inductive invariant. Each theorem quantifies over all runs. Thread counts have no bound.
- Absence of deadlock is stated with a bound: every step that starts no new work uses some up, and such a step is
  possible until everything is over (`SessionDrains`, `EverythingDrains`, `OperationsDrain`; `Workload.dfy`).
- Objects that the crate updates in place are classes whose methods state the whole new state. Sessions also
  record the run of `SessionProtocol` that their calls are (`Valid`), so every theorem about runs applies to them.
- The layout of RM_FILTER_INFO, the three trigger values and the width of `usize` are parameters (`Layout`), with
  the x64 and x86 values as instances; `usize` arithmetic that the crate checks is checked here at that width.

Where the code and its comments differ, the code is followed:

- "calls `RmEndSession` exactly once" (src/sys.rs:101): a failed explicit end is tried again by the destructor. The
  call is made twice exactly if an explicit end failed, and at most one succeeds (`SessionProtocol.SessionConserved`).
- A progress closure that panics during a restart leaves the recovery arm loaded, so a second RmRestart follows
  (`Session.RestartPending.RestartWithProgress`); this is the only way to a second one (`SessionTrace.RestartsCounted`).
- "Receives a newer progress value" (src/tokio.rs:540): a receive can repeat the previous value. A run shows it
  (`WatchChannel.RecvCanRepeat`) and the exact condition is `WatchChannel.RepeatsExactly`.
- A late OS callback can reach the next lease, whether it was begun in time or not
  (`CallbackLease.LateCallReachesNextLease`, `CallbackLease.LateStartReachesNextLease`). It never touches freed memory
  (`CallbackLease.NeverDangling`), and it reaches its own operation exactly if that operation's lease is still live
  (`CallbackLease.ReachesOwnLeaseExactly`), which a punctual Windows guarantees.
- A reported filter length of zero means "the whole supplied buffer" (src/sys.rs:565-569), so a filter list that is
  emptied between the probe and the data call ends in an error instead of an empty list (`FilterList.HonestList`).

`dafny verify dfyconfig.toml` checks everything.

## Model

| member | source | states |
|---|---|---|
| `FilterBuffer.ParseFilterBuffer` | src/sys.rs:614-694 | The in-place parser returns exactly what the specification `Parse` says of the first `byteLen` bytes at that address, so bytes added by rounding up to words never matter; a length beyond the allocation is an error; a result of n filters needs n records inside `byteLen`. |
| `FilterBuffer.ParseExact` | src/sys.rs:614-694 | `Parse` succeeds with a list exactly if the valid bytes hold a well-formed chain for it: records in range, known triggers, aligned NUL-terminated strings inside the buffer, links that advance by whole records and end in zero. Every other input is an error. |
| `FilterBuffer.RecordExact` | src/sys.rs:636-691 | Decoding the record at an offset succeeds exactly where the declarative relation between bytes, filter and link holds, and only on records inside the limit. |
| `FilterBuffer.TargetExact` | src/sys.rs:650-673 | The trigger selects the target, and the target read is exactly the one the bytes stand for; the executable and service pointers must be non-null strings of the buffer. |
| `FilterBuffer.StringExact` | src/sys.rs:696-734 | A pointer is read as a string exactly if it lies in the buffer at an even address, is followed by non-zero units and a terminator before the end, and its reservation is granted. |
| `FilterBuffer.UnitsExact` | src/sys.rs:712-734 | The cursor loop finds a string exactly if the memory spells it, terminator included. |
| `FilterBuffer.StringFails` | src/sys.rs:696-711 | Reading a string fails for want of memory exactly if a pointer in range and aligned has its reservation refused; every other failure is malformed output. |
| `FilterBuffer.RecordFails` | src/sys.rs:636-678 | A record fails for want of memory exactly if it is whole, has a file or service trigger, and its string fails so; every other failure is malformed output. |
| `FilterBuffer.ParseFails` | src/sys.rs:633-692 | Which error: the first record that fails decides it, and a link that is not zero and does not leave its record is malformed output. |
| `FilterBuffer.HalvesInPlace` | src/sys.rs:482-484 | The low half of the 64-bit time is the low double word of the FILETIME, and the high half the high one. |
| `FilterBuffer.LittleEndian` | src/sys.rs:645-649 | Numbers are read lowest byte first, pointers in the width of the target. |
| `FilterBuffer.WindowsLayoutsAreValid` | src/sys.rs:883-913 | The x64 and x86 layouts are instances of the layouts the parser is verified for. |
| `FilterBuffer.FilterCountBounded` | src/sys.rs:633-692 | Records never overlap: n filters take at least n times the record size of the valid bytes. |
| `FilterBuffer.UnitsBounded` | src/sys.rs:708-734 | A string never outgrows the capacity of (end - start) / 2 units that is reserved for it. |
| `FilterBuffer.ReadBufferString` | src/sys.rs:696-734 | The cursor loop in memory computes the specified string, reading no byte outside the valid part. |
| `FilterBuffer.ReadRecord` | src/sys.rs:636-649 | The field reads of one record stay inside the valid bytes and give the record the view shows. |
| `FilterBuffer.ReadFilter` | src/sys.rs:636-678 | One pass of the loop body decodes the record as specified, or fails as specified. |
| `FilterBuffer.ParseRecords` | src/sys.rs:633-692 | The offset loop follows the links from offset 0 and collects exactly the specified list, and terminates. |
| `LinkedRecords.ChainOf` | src/sys.rs:633-692 | What is followed to a zero link is a chain: an independent description by the list of all record offsets. |
| `LinkedRecords.ChainFollowed` | src/sys.rs:633-692 | Every such chain is followed to its end and yields exactly its items, in order. |
| `LinkedRecords.CountBounded` | src/sys.rs:633-692 | The number of records followed, times the record size, is at most the limit. |
| `LinkedRecords.FirstFailureWins` | src/sys.rs:633-692 | Following links fails with the failure of the first record on the way that fails, or with the given error at a record outside the limit or a link that does not leave its record. |
| `LinkedRecords.LinkedReadsBack` | src/sys.rs:883-913 | For any writer of sized chunks that are individually read back, the linked list of chunks is read back as the list. |
| `FilterEncoding.FileTimeInverse` | src/sys.rs:482-491 | Splitting a 64-bit time into FILETIME halves and joining it are inverse in both directions, on all values. |
| `FilterEncoding.ChunkDecodes` | src/sys.rs:883-913 | A record with its trailing string, at any even address of a buffer, decodes to the filter and link it was written for. |
| `FilterEncoding.ParseEncoded` | src/sys.rs:614-694 | Round trip: for every list of NUL-free filters, layout and even address, parsing the linked records with trailing strings gives the list back. |
| `Filters.FilterFromRawExact` | src/session.rs:758-785 | A native filter converts to a typed one exactly if that one is valid and is what the native filter was made from. |
| `Filters.FromRawExact` | src/session.rs:309-317 | The collected conversion succeeds with a list exactly if the native list is the one of that list and every target is valid. |
| `Filters.RawIsNulFree` | src/filter.rs:30-98 | The constructors' validation keeps NUL out of every native string. |
| `FilterList.CapacityExact` | src/sys.rs:585-611 | The aligned buffer is the least whole number of words that holds the request; its saturating multiplication never saturates. |
| `FilterList.GetFilters` | src/sys.rs:536-579 | For every sequence of OS replies the retry loop has the outcome that the next four rows determine, after one to nine native calls. |
| `FilterList.NativeFailureWins` | src/sys.rs:544-564 | A call that is made, probe or data call, and is answered neither with success nor with more-data decides the outcome: that native error. |
| `FilterList.SuccessDecides` | src/sys.rs:564-575 | A data call that succeeds decides the outcome: a reported length above the supplied one is malformed, any other is parsed, zero as the whole supplied buffer. |
| `FilterList.AskingDecides` | src/sys.rs:541-563 | A call that asks again decides the outcome only with nothing left to ask for (empty list), a size that overflows, a refused buffer, or as the last of the eight data calls (DataChanged); otherwise the next call is made. |
| `FilterList.SomeCallDecides` | src/sys.rs:536-579 | One of at most nine calls is of a kind that decides, so the three rows above fix the outcome for every OS. |
| `FilterList.HonestOsExists` | src/sys.rs:536-579 | The honest OS of the next two rows exists for every history of lists and every placement of buffers. |
| `FilterList.HonestList` | src/sys.rs:555-579 | Against an honest OS whose list changes between calls: the exact list of the call that settles the loop, if and only if it is not empty; DataChanged exactly if the list grew before each of the eight data calls; a list emptied in between is reported as malformed. |
| `FilterList.FiltersRoundTrip` | src/session.rs:309-317 | Every list of valid filters survives OS, buffer, parser and conversion unchanged. |
| `WideText.DecodeFixedExact` | src/sys.rs:506-514 | A fixed field decodes to a text exactly if the text is NUL-free and followed by a NUL inside the field. |
| `WideText.SessionKeyExact` | src/session.rs:90-92 | A field is accepted as a session key exactly if it starts with 32 ASCII hexadecimal digits and a NUL; the key is those digits. |
| `AffectedList.AffectedApplications` | src/sys.rs:184-251 | For every sequence of OS replies the retry loop has the outcome that the next four rows determine, after one to nine native calls. |
| `AffectedList.NativeFailureWins` | src/sys.rs:199-232 | A call that is made, probe or data call, and is answered neither with success nor with more-data decides the outcome: that native error. |
| `AffectedList.SuccessDecides` | src/sys.rs:199-247 | A call that succeeds decides the outcome: the probe with an empty list and the reasons, a data call with more entries than supplied as malformed, any other with exactly its decoded entries and reasons, or as malformed exactly if an entry does not decode. |
| `AffectedList.MoreDataDecides` | src/sys.rs:209-250 | A call that asks for more decides the outcome only by a refused buffer or as the last of the eight data calls (DataChanged); otherwise the next call is made. |
| `AffectedList.SomeCallDecides` | src/sys.rs:184-251 | One of at most nine calls is of a kind that decides, so the three rows above fix the outcome for every OS. |
| `AffectedList.DecodeAll` | src/sys.rs:239-243 | The entries are decoded in order and the first failure wins. |
| `AffectedList.SnapshotExact` | src/sys.rs:184-251 | Against an honest OS the snapshot is the exact list and reasons as of the last call made; DataChanged exactly if the list was non-empty at the probe and strictly grew before each of the eight data calls. |
| `AffectedList.AttemptsHonest` | src/sys.rs:208-248 | The loop stops at the first data call whose list fits the previous report, and not before. |
| `AffectedList.HonestOsExists` | src/sys.rs:184-251 | Such an OS exists for every history of snapshots. |
| `Progress.StrictPrefix` | src/session.rs:655-676 | The result is the longest prefix of the samples that is in 0..=100 and strictly increasing. |
| `Progress.StrictIsShort` | src/session.rs:655-676 | A strict sequence has at most 101 samples. |
| `Progress.EveryPercentageIsStrict` | src/session.rs:655-676 | The bound is reached: 0 to 100, one by one, is strict throughout. |
| `Progress.ProgressCallback.DeliverProgress` | src/session.rs:655-676 | The gate passes a sample on exactly if nothing was malformed before and the samples passed on stay strict with it; otherwise the operation is malformed for good. |
| `Progress.ProgressCallback.CallCallback` | src/sys.rs:790-804 | After each sample the state is the one determined by all samples so far: what was delivered, the first panic, the malformed flag; after a panic nothing changes. |
| `Progress.RunWithCallback` | src/sys.rs:820-834 | A whole native operation: the closure gets exactly the strict prefix, cut after its first panic; the panic is resumed exactly if there was one; a taken slot makes no call at all. |
| `Progress.CallsOf` | src/session.rs:655-676 | The number of closure calls is at most 101, and falls short of the strict prefix only by a panic of the last call. |
| `Progress.SawExactly` | src/sys.rs:820-834 | The state after the operation is determined by samples and closure alone. |
| `Progress.OutcomeExact` | src/session.rs:271-289 | The retained outcome is Succeeded exactly if Windows succeeded and every sample was delivered; a native error wins over malformed progress. |
| `CallbackLease.RunKeeps` | src/sys.rs:737-834 | Over every interleaving of operations and OS callbacks: slot and lease, lock and holder, running closures, re-entrant operations and captured panics agree. |
| `CallbackLease.Exclusive` | src/sys.rs:764-788 | At most one lease is live and at most one closure runs; the slot is filled exactly while a lease is live and points to it. |
| `CallbackLease.NeverDangling` | src/sys.rs:790-818 | The erased pointer is dereferenced only while the state it points to is alive. |
| `CallbackLease.InspectedAlone` | src/sys.rs:820-834 | When the panic field is read, the slot does not point to that state and its closure is not running. |
| `CallbackLease.ReentryIsRefused` | src/sys.rs:765-778 | An operation started from inside a closure can always go on, gets CallbackInUse, and changes nothing else. |
| `CallbackLease.PanicsResume` | src/sys.rs:790-834 | An operation resumes a panic exactly if one of its closure calls panicked, and no call followed that one. |
| `CallbackLease.RefusedWasNeverLeased` | src/sys.rs:765-778 | An operation that got CallbackInUse never held a lease, and its closure was never called. |
| `CallbackLease.EverySampleIsPassedOn` | src/sys.rs:790-818 | The closure of a finished operation was called with exactly the samples reported while its lease was live, up to and including the first call that panicked: none is skipped, repeated or reordered, and without a panic all were passed on. |
| `CallbackLease.RefusedExactlyOnConflict` | src/sys.rs:765-778 | An operation is refused exactly if another thread has the lock when it tries, or if a lease is live when it has the lock. |
| `CallbackLease.AlwaysPossible` | src/sys.rs:764-834 | Any thread and any running closure can start an operation, Windows can call at any time with any sample, and any closure that is not inside an operation of its own can return or panic. |
| `CallbackLease.ReentryHappens` | src/sys.rs:765-778 | A run in which a closure starts an operation. |
| `CallbackLease.ConclusionIsRun` | src/sys.rs:820-834 | However operations and callbacks interleave, each operation ends as the sequential account in `Progress` says for the samples reported while its lease was live, with the slot taken exactly if it was refused. |
| `CallbackLease.NeverStuck` | src/sys.rs:764-834 | While an operation or a callback is in flight, a step is possible that starts neither: no deadlock. |
| `CallbackLease.OperationsDrain` | src/sys.rs:764-834 | Once no operation and no callback is started, in any order of the threads, a bounded number of steps follows, and when none is possible no operation and no callback is in flight. |
| `CallbackLease.PunctualCallsReachTheirLease` | src/sys.rs:806-818 | Each callback is made for some operation, which the program cannot see. If Windows makes callbacks for an operation only while its native call runs and has finished them when it returns, every closure call belongs to the operation it was made for. |
| `CallbackLease.ReachesOwnLeaseExactly` | src/sys.rs:806-818 | A callback that finds a lease reaches the closure of the operation it was made for exactly if that operation's lease is still live, no matter when the callback was begun. |
| `CallbackLease.LateCallReachesNextLease` | src/sys.rs:806-818 | A run in which a callback that was begun in time is delayed and reaches the next lease. |
| `CallbackLease.LateStartReachesNextLease` | src/sys.rs:806-818 | A run in which a callback that is begun for an operation already over reaches the next lease. |
| `SessionTrace.RestartPrecedesEnd` | src/session.rs:447-454 | Once RmShutdown was issued, RmRestart is issued before every RmEndSession unless leave_stopped ran. |
| `SessionTrace.OneShutdownFirst` | src/session.rs:239-290 | RmShutdown is issued at most once and before every RmRestart. |
| `SessionTrace.RestartNeedsShutdown` | src/session.rs:369-454 | No RmRestart without an earlier RmShutdown. |
| `SessionTrace.RestartsCounted` | src/session.rs:390-454 | RmRestart is issued at most once, and a second time only after a restart whose callback panicked. |
| `SessionTrace.NothingAfterClose` | src/sys.rs:340-380 | No native call follows a successful end or the last owner's attempt. |
| `SessionTrace.TwoEndsAtMost` | src/sys.rs:352-380 | A second RmEndSession is the destructor's, after a failed explicit one. |
| `SessionTrace.OneSuccess` | src/sys.rs:352-380 | Each kind of end is issued and returns at most once, and only one of the two succeeds. |
| `SessionTrace.NoEndDuringCancel` | src/sys.rs:340-365 | RmEndSession is not issued before a running RmCancelCurrentTask has returned. |
| `SessionTrace.NoCancelDuringEnd` | src/sys.rs:340-365 | RmCancelCurrentTask is not issued before a running RmEndSession has returned. |
| `SessionProtocol.RunIsDisciplined` | src/sys.rs:340-380 | Over all runs of the owner and any number of cancelling threads the native calls follow the discipline that the SessionTrace rows are about. |
| `SessionProtocol.RunKeeps` | src/sys.rs:340-380 | The inductive invariant over all runs: typestate, mutex, flag, reference count and the calls so far agree. |
| `SessionProtocol.StepKeeps` | src/sys.rs:340-380 | The inductive step: any single step keeps the invariant, and what it calls is allowed by the calls before it. |
| `SessionProtocol.SessionConserved` | src/sys.rs:352-380 | Every freed session was ended once, and a second time exactly if an explicit end had failed; each attempt returned, at most one with success; a shutdown was answered by exactly one RmRestart, one more if its callback panicked, or none after leave_stopped; without a shutdown there was none. |
| `SessionProtocol.NeverStuck` | src/sys.rs:340-380 | Until the session is freed a step is possible that starts no new query or cancel; while there is an owner it is the owner's, or that of the canceller whose mutex the owner waits for. |
| `SessionProtocol.SessionDrains` | src/sys.rs:340-380 | Once no new query or cancel is started, in any order of the threads, a bounded number of steps follows, and when none is possible the session is freed and conserved. |
| `SessionProtocol.StepUsesWork` | src/sys.rs:340-380 | Every step other than a new query or cancel strictly reduces the bound. |
| `SessionProtocol.CanBeFreed` | src/sys.rs:340-380 | From every state of every run there is a continuation without new queries or cancels that frees the session. |
| `SessionProtocol.NoCancelAfterEnd` | src/sys.rs:340-350 | After an explicit end succeeded no thread is inside RmCancelCurrentTask and none can enter it. |
| `SessionProtocol.RefusedAfterEnd` | src/session.rs:622-634 | A cancel begun after an explicit end succeeded, whether or not its weak reference can be upgraded, is told SessionEnded when it is over. |
| `SessionProtocol.RefusedOnlyWhenOver` | src/session.rs:622-634 | Conversely, whoever is told SessionEnded, by a failed upgrade or under the mutex, was told so by a session that is over. |
| `SessionProtocol.EndNeverFoundDone` | src/sys.rs:352-356 | The early return of `end` is never taken: only the owner ends explicitly, and once. |
| `Session.SessionHandle.Shutdown` | src/sys.rs:309-312 | Issues RmShutdown once and returns its code; the session is pending. |
| `Session.SessionHandle.ShutdownWithProgress` | src/sys.rs:314-323 | A taken slot leaves the session unchanged; otherwise RmShutdown is issued once, and a panic leaves the session unwinding. |
| `Session.SessionHandle.Restart` | src/sys.rs:325-328 | Issues RmRestart once and returns its code, for the typestate and for its destructor. |
| `Session.SessionHandle.RestartWithProgress` | src/sys.rs:330-338 | A taken slot leaves the session unchanged; otherwise RmRestart is issued once, and a panic is recorded and leaves the session unwinding. |
| `Session.SessionHandle.Cancel` | src/sys.rs:340-350 | SessionEnded without a native call exactly if the session has no owner or was ended; else one RmCancelCurrentTask. |
| `Session.SessionHandle.End` | src/sys.rs:352-365 | One RmEndSession; the session counts as ended exactly if it succeeded. |
| `Session.SessionHandle.Inquire` | src/session.rs:142-147 | Registering, listing and filtering add calls of one kind only and leave the typestate. |
| `Session.SessionHandle.Release` | src/sys.rs:368-380 | The last reference ends the session once, unless it was ended. |
| `Session.RestartPending.constructor` | src/session.rs:337-342 | The recovery arm is loaded with the core and a successful shutdown outcome. |
| `Session.RestartPending.TakeCore` | src/session.rs:348-350 | Takes the core out of the recovery arm, which is empty afterwards. |
| `Session.RestartPending.TakeShutdown` | src/session.rs:352-356 | Takes the retained outcome. |
| `Session.RestartPending.Drop` | src/session.rs:447-454 | An armed value restarts once and then ends the session; a taken one does nothing. |
| `Session.RestartPending.Restart` | src/session.rs:369-382 | One RmRestart, both outcomes retained, and the arm is empty. |
| `Session.RestartPending.RestartWithProgress` | src/session.rs:390-431 | The state comes back unchanged, without a native call, exactly if the slot was taken; after a panicking closure the destructor restarts a second time and ends the session; otherwise both outcomes are retained. |
| `Session.RestartPending.LeaveStopped` | src/session.rs:435-444 | No native call; the arm is emptied on purpose and no restart outcome is retained. |
| `Session.ShutdownWithOptions` | src/session.rs:239-248 | Always enters the armed pending state and retains the outcome, after one RmShutdown. |
| `Session.ShutdownWithProgress` | src/session.rs:254-290 | The session comes back unchanged exactly if the slot was taken; a panicking closure leads to a restart and an end; otherwise the outcome follows code and strictness of the samples. |
| `Session.EndSession` | src/session.rs:149-153 | One end, and a second attempt by the destructor exactly if the first failed. |
| `Session.EndCompletion` | src/session.rs:478-482 | Returns the retained outcomes exactly if the first attempt succeeded. |
| `Session.DropIdle` | src/sys.rs:368-380 | An idle typestate that goes out of scope ends the session once. |
| `Session.OpenSession` | src/sys.rs:108-122 | The session and its key come back exactly if the field holds a key; otherwise the handle is dropped, which ends the native session. |
| `Session.JoinSession` | src/session.rs:108-114 | A joined session starts without native calls, as its own typestate. |
| `Session.CallsAreDisciplined` | src/sys.rs:340-380 | At any time the native calls of a session object follow the discipline, and once it has no owner the session was ended as conservation demands. |
| `Session.EndRuns` | src/sys.rs:352-365 | The calls of an uninterrupted end are a run of the concurrent protocol. |
| `Session.CancelRuns` | src/sys.rs:340-350 | The calls of an uninterrupted cancel, refused or not, are a run of the concurrent protocol. |
| `Session.ReleaseRuns` | src/sys.rs:368-380 | The calls of the last owner's release are a run of the concurrent protocol. |
| `AsyncWorker.Worker.ExecuteCommand` | src/tokio.rs:246-439 | The in-place execution (typestate taken out and put back) of each of the fifteen commands has exactly the specified typestate, reply and native calls. |
| `AsyncWorker.CommandsOfFacades` | src/tokio.rs:246-439 | Which of the fifteen commands belong to which typestate; an ended session has none. |
| `AsyncWorker.Worker.Ask` | src/tokio.rs:248-286 | A borrowing command leaves the typestate; in the wrong one it makes no call. |
| `AsyncWorker.Worker.ExecuteShutdown` | src/tokio.rs:287-302 | Shutdown takes the session out of the worker and puts the pending state back, or puts back what it found. |
| `AsyncWorker.Worker.ExecuteShutdownWithProgress` | src/tokio.rs:303-332 | Shutdown with progress puts the pending state into the worker, or the primary one back after a conflict, or back what it found. |
| `AsyncWorker.Worker.ExecuteRestartWithProgress` | src/tokio.rs:360-385 | Restart with progress puts the completion into the worker, or the pending state back after a conflict, or back what it found. |
| `AsyncWorker.Worker.ExecuteRestart` | src/tokio.rs:344-359 | Restart moves a pending worker to its completion with both outcomes, and leaves any other state. |
| `AsyncWorker.Worker.ExecuteLeaveStopped` | src/tokio.rs:386-401 | Leaving stopped moves a pending worker to its completion without a restart outcome, whatever Windows would answer. |
| `AsyncWorker.Worker.ExecuteEndCompletion` | src/tokio.rs:409-419 | Ending after recovery leaves the worker empty and replies with the retained outcomes if the end succeeded. |
| `AsyncWorker.Worker.ExecuteEnd` | src/tokio.rs:333-343 | Ending a primary or a joined session leaves the worker empty; the other kind of session is left alone. |
| `AsyncWorker.Worker.DropState` | src/tokio.rs:240-244 | Dropping the worker's typestate restarts and ends a pending session, ends an idle one, and does nothing when empty. |
| `AsyncWorker.Worker.RunWorker` | src/tokio.rs:240-244 | The loop executes the commands in order, one reply each, then drops the typestate; its native calls follow the discipline and the session is ended. |
| `AsyncWorker.ShutdownFuture.PollReply` | src/tokio.rs:748-780 | Ready exactly with a reply or a closed channel. The handle it gives is the one `Resolved` names, which the protocol's client uses, on the same worker; a conflict gives back the whole facade that the future was made from. |
| `AsyncWorker.ShutdownFuture.Drop` | src/tokio.rs:783-791 | Asks for cancellation exactly if no poll was ready before. |
| `AsyncWorker.RestartFuture.PollReply` | src/tokio.rs:866-877 | Ready exactly with a reply or a closed channel; the handle it gives is the one `Resolved` names, on the same worker. |
| `AsyncWorker.RestartWithProgressFuture.PollReply` | src/tokio.rs:896-923 | The handle it gives is the one `Resolved` names, on the same worker; a conflict gives back the pending facade with the shutdown outcome it had cached. |
| `AsyncProtocol.RunKeeps` | src/tokio.rs:155-439 | Over every interleaving of sends, polls, drops, worker steps and cancelling threads an inductive agreement of client, queue, worker and native session holds. |
| `AsyncProtocol.ClientAndWorkerAgree` | src/tokio.rs:661-952 | Whatever Windows answers to the pending commands, the worker drains the queue into exactly the typestate that the client's handle claims or its future resolves to, cached outcomes included; a future resolves to no handle exactly if the session is over; no reply says "wrong typestate". |
| `AsyncProtocol.Drains` | src/tokio.rs:240-439 | Draining a queue whose only consuming command is the last one: no wrong typestate, only that command moves it, and its reply resolves to exactly where it moved. |
| `AsyncProtocol.ReplyAgrees` | src/tokio.rs:748-923 | The reply to a consuming command takes the client to exactly the typestate the worker went to, cached outcomes included and for both branches of a callback conflict; it leaves no handle exactly if the worker is left empty. |
| `AsyncProtocol.ExecutedInSendOrder` | src/tokio.rs:240-244 | Executed commands are a prefix of the sent ones, all of them once the loop has ended, and each has its one reply. |
| `AsyncProtocol.RepliesCome` | src/tokio.rs:441-443 | Whoever awaits a reply has it already or the serving worker still holds the command: the channel is never found closed. |
| `AsyncProtocol.RepliesTellWindows` | src/tokio.rs:246-439 | Every reply was made by executing the very command it answers, in the typestate that command is for, and says what Windows and the samples made of it: native codes, malformed progress and conflicts included. |
| `AsyncProtocol.ShutdownOutcomeIsTrue` | src/tokio.rs:287-332 | The shutdown outcome retained in a pending or completed session is what Windows made of the shutdown, however many steps ago that was. |
| `AsyncProtocol.RestartOutcomeIsTrue` | src/tokio.rs:344-401 | So is the restart outcome of a completed session, which is missing exactly after leave_stopped. |
| `AsyncProtocol.HandleIsKept` | src/tokio.rs:661-952 | A client without a handle has dropped it, or a future that carried it, or its session had ended or never begun. |
| `AsyncProtocol.NothingBlocksTheClient` | src/tokio.rs:661-952 | A handle takes every command of its typestate and no other, a reply can be taken exactly when it is there, and everything can be dropped. |
| `AsyncProtocol.AskingCanCall` | src/tokio.rs:248-286 | A borrowing command that is executed finds its session idle and can call Windows. |
| `AsyncProtocol.WindowsDecides` | src/tokio.rs:155-439 | Either answer of Windows to opening and ending a session is possible where it is asked, and so are a free and a taken callback slot. |
| `AsyncProtocol.SessionRuns` | src/tokio.rs:246-439 | The native part of every asynchronous run is a run of the session protocol. |
| `AsyncProtocol.NativeCallsAreDisciplined` | src/tokio.rs:155-439 | With futures dropped anywhere, also before initialisation completes, the native calls follow the discipline; after worker exit the session is conserved. |
| `AsyncProtocol.HandedBackUntouched` | src/tokio.rs:303-385 | When a typestate is handed back, the trace holds no RmShutdown (or no RmRestart) and the worker is back in its earlier typestate. |
| `AsyncProtocol.CommandMakesItsCalls` | src/tokio.rs:246-439 | The native calls between taking a command and replying are exactly the specified ones; only the end behind the last reference may be another thread's. |
| `AsyncProtocol.HandedBackIffNoCall` | src/tokio.rs:303-385 | At the end of a command that reports progress the reply hands the typestate back exactly if no native call was made since the command was taken. |
| `AsyncProtocol.EndedWhenOk` | src/tokio.rs:718-724 | An end that replies Ok has ended the session with success. |
| `AsyncProtocol.CancelIsNeverRefused` | src/tokio.rs:783-791 | While a dropped shutdown future asks for cancellation, the session has an owner and is not ended, so the cancel is never refused; the worker's loop cannot end meanwhile. |
| `AsyncProtocol.CancelReachesWindows` | src/tokio.rs:783-791 | From the drop of a shutdown future on, its client is still cancelling or has let go, and it lets go only after RmCancelCurrentTask was issued for it. |
| `AsyncProtocol.DroppedMeansCancelled` | src/tokio.rs:783-791 | So whoever dropped an unresolved shutdown future and is through with it has issued RmCancelCurrentTask since. |
| `AsyncProtocol.CancelAtAnyTime` | src/session.rs:622-634 | A cancellation handle can be used at any time by any thread. |
| `AsyncProtocol.WorkerNeverStuck` | src/tokio.rs:240-244 | Unless it waits for a live client, the worker has a step, or the canceller has that holds the mutex it waits for; no new command, query or cancel is needed. |
| `AsyncProtocol.NeverStuck` | src/tokio.rs:155-439 | Until client, worker and session are all through, a step is possible that starts nothing new. |
| `AsyncProtocol.EverythingDrains` | src/tokio.rs:155-439 | Once no new command, query or cancel is started, in any order and wherever futures are dropped, a bounded number of steps follows; when none is possible the client has let go, every sent command was executed, the worker has exited, and the session is freed and conserved. |
| `RegistrationLease.Register` | src/application_restart.rs:147-169 | Rejects a NUL or more than 1024 units in the arguments first, then a taken lease, then a failed native call, with its code; each leaves flag and registration as they were. Success holds the lease, and Windows has the arguments with exactly the disabled policies in its flag bits. |
| `RegistrationLease.Registration.Update` | src/application_restart.rs:172-178 | The options change exactly if they are valid and Windows took them, so arguments and flag bits keep matching; otherwise the error says why, with the native code. |
| `RegistrationLease.Registration.Unregister` | src/application_restart.rs:184-192 | The result is that of the first native call, with its code; the lease is released in every case; the registration survives only if both native attempts fail. |
| `RegistrationLease.Registration.Drop` | src/application_restart.rs:200-207 | An armed value makes one attempt and releases the lease; a disarmed one touches nothing. |
| `RegistrationLease.Registration.Disarm` | src/application_restart.rs:194-197 | Disarming and releasing go together. |
| `RegistrationLease.RunKeeps` | src/application_restart.rs:147-207 | The lease invariant holds over every interleaving of threads. |
| `RegistrationLease.LeaseIsExclusive` | src/application_restart.rs:147-169 | The flag is set exactly while one owner is between its compare-exchange and its release, and there is never a second; valid options can be registered exactly while the flag is clear. |
| `RegistrationLease.ReleaseIsOwn` | src/application_restart.rs:194-207 | A release is made by the one holder and leaves none. |
| `RegistrationLease.ArmedMatchesWindows` | src/application_restart.rs:172-178 | Between two calls an armed value's options are the ones Windows has. |
| `RegistrationLease.FreeMeansUnregistered` | src/application_restart.rs:184-207 | While nobody holds the lease Windows has a registration exactly if a best-effort attempt failed. |
| `RegistrationLease.NativeIsExact` | src/application_restart.rs:121-126 | Arguments and flag bits determine the options. |
| `RegistrationLease.FlagsDisable` | src/application_restart.rs:121-126 | Bit by bit: 1, 2, 4 and 8 are set exactly if restarting after a crash, hang, update or reboot is disabled, and no other bit is. |
| `RegistrationLease.OptionsAreAccepted` | src/application_restart.rs:172-178 | Over all runs an armed value has the options of its last call that Windows took; a failed update leaves them. |
| `RegistrationLease.ArmedUntilGivenUp` | src/application_restart.rs:172-207 | A value that is armed stays so until it is unregistered or dropped. |
| `RegistrationLease.HolderCanMove` | src/application_restart.rs:147-207 | Whatever Windows answers the holder can go on; an armed value takes exactly the updates with valid arguments, and can be given up. |
| `RegistrationLease.LeaseComesBack` | src/application_restart.rs:184-207 | Once nothing is registered or updated any more, at most seven steps follow, and when none is possible the lease is free. |
| `WatchChannel.NeverDecreasing` | src/tokio.rs:533-545 | Every receiver, clones included, is given delivered samples only, never an older after a newer one. |
| `WatchChannel.ReadsAreCurrent` | src/tokio.rs:533-545 | Every receive and every peek gives the sample that is current at that moment: the last one sent before it in the run; closing is for good. |
| `WatchChannel.LastBeforeNone` | src/tokio.rs:541-544 | When recv returns None, the last sample that a receive returned is the last delivered one; it was this receiver's own receive unless nothing was delivered that had not been returned before cloning. |
| `WatchChannel.RepeatsExactly` | src/tokio.rs:541-544 | If nothing was sent since a receive, the next one does not wait exactly if that receive read past its own mark, and it then returns the same sample again. |
| `WatchChannel.NewerAfterNoRace` | src/tokio.rs:541-544 | A receive after one that did not read past its mark returns a newer sample. |
| `WatchChannel.NeverHangs` | src/tokio.rs:533-545 | A sample not yet marked can always be received, after the sender is gone too; without one a receive ends exactly when the sender has closed. Sending is possible exactly while the sender is open and the sample stays strict. |
| `WatchChannel.OneMoreThenNone` | src/tokio.rs:541-544 | Once the sender has closed, a receiver is given at most one more sample and then None. |
| `WatchChannel.RecvCanRepeat` | src/tokio.rs:541-544 | A run in which recv gives the same sample twice. |

## Left out

- The Win32 calls themselves, the error tables and the texts of errors: oracles, return codes and error kinds stand for them.
- Tokio, `mpsc`, `oneshot`, `watch`, `Arc`, `Weak` and `Mutex` internals: only their documented atomic behaviour is modelled.
- Path absolutisation, directory checks and OS-string encodings: an uninterpreted test for absolute paths and sequences of 16-bit units.
- `ResourceBatch`, the `register_*` wrappers, `set_filter` and `remove_filter`: calls of one kind (`Query`) in the trace; their arguments are not modelled.
- `Debug` and `Display` redaction, option builders, `ShutdownOptions` flags, `ApplicationType` and bitflag accessors: each is one match.
- The non-Windows backend: every function returns UnsupportedPlatform.
- A panic of the worker thread itself, `mem::forget`, process abort and real-time claims: progress is stated as a bound on steps, without fairness between threads.
- A failing RmStartSession or RmJoinSession: there is no session then; runs begin with the success of the call.
- AsyncProtocol.NativeCallsAreDisciplined: resource arguments and progress samples of the commands are not part of the transition system; `AsyncWorker.Worker.ExecuteCommand` covers them for one thread.
- FilterEncoding.ParseEncoded: a buffer of 2^32 bytes or more is excluded, because record links are 32-bit numbers, and every allocation is granted.
- FilterList.HonestList: buffers are placed at even addresses with room before the end of the address space, as the allocator does.
- RegistrationLease.ArmedMatchesWindows: failed native calls are taken to change nothing, and no other code in the process registers.
