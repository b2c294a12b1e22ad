# Verified model of the logger and the storage server

This project models the two halves of the repository and proves properties of the models with
Dafny 4.11. `dafny verify dfyconfig.toml` checks everything.

**The logging pipeline.** Producers hand messages to an asynchronous worker, which keeps two growable
buffers and swaps them under a mutex; a consumer thread flushes what it swapped out into a rolling file
sink. A bounded thread pool runs the remote backup, and a backup server receives lines, counts its
connections and writes size-limited files that it rotates.

**The storage server.** Uploads and deletes change files and a metadata table together. The table is
saved as a JSON snapshot that is renamed into place, and it is read back at start-up. Login attempts are
rate limited, file names and bodies travel in Base64, and downloads honour `Range` headers.

## How the models are built

Code that is concurrent, or that can be cut short by a failed call or a crash, is an *interleaving
machine*: a `State`, an `Event` for every section run under a lock, every notification and every system
call, a predicate `Enabled`, a function `Step`, and runs of any length over any number of threads. The
machines are `AsyncProtocol`, `PoolProtocol`, `BackupServer`, `MetadataProtocol` and
`StorageTransaction`. Every safety statement about them is an invariant proved for each event and then
for every run; progress statements name a step that is enabled or a measure that falls.

Code that updates fields is a *class* with those fields, whose methods run the source's own statements
and loops. Where a machine exists, each method's postcondition says that the abstract view of the object
makes exactly the machine's step (`View() == Step(old(View()), e)`), so that what is proved about runs
holds for objects; a call such as `DataManager.Manager.Insert` is its sections in a row. In
`StorageService.Service` the steps are finer: its handlers call fallible system calls in
the source's order and carry the run they have made, so each state between two calls is a state of the
machine.

| files | what they model |
|---|---|
| `AsyncBuffer`, `AsyncWorker` | the growable buffer over an array; the double-buffer worker |
| `RollingLog`, `LogPipeline` | the rolling sink with failing writes; worker and sink composed |
| `ThreadPool` | the bounded pool with notifications sent after the mutex is released |
| `BackupLog`, `BackupServer` | rotation by a cascade of renames; the connection counter |
| `LoginRateLimiter` | the limiter and the sliding-window bound over every run |
| `Base64`, `HttpRange` | encoder, decoder, validator, line breaks; the range parser |
| `StoragePaths`, `StorageMetadata`, `DataManager`, `MetadataProtocol` | path arithmetic; the snapshot; the table's owner; its concurrent callers and crashes |
| `StorageTransaction`, `StorageService` | uploads and deletes over a file system; the request handlers |
| `Collections`, `Arithmetic` | sequences, sums and small arithmetic |

## What turned out not to hold as hoped

Each of these is proved: the input that shows it, and the condition under which the code does what is
hoped.

- **Stored bytes can be lost.** A delete moves the file to a name `.delete-XXXXXX` made by mkstemp. If
  the metadata cannot be saved and the file cannot be moved back, its path stays free. An uploaded file
  whose own name has that shape leaves such a free path where mkstemp may put *another* file's only
  copy, which a later delete then removes (`ShapedNameCanLose`). Over all runs, nothing is lost exactly
  if no accepted name, beside another one, has the shape of the trash
  (`NoLossExactlyForSafeNames`). The server's name check does not exclude it
  (`NameCheckIsOneConditionShort`).
- **The shipped configuration cannot restart.** `src/server/Storage.conf` ends its directories in a
  separator. The reader compares a stored path's parent with the directory's normal form, which keeps
  the separator, so that every saved record is refused. A snapshot of uploads comes back exactly if the
  directories in use are usable in the sense of `UsableDirectory` (`SnapshotRoundTrip`,
  `ParentIsDirectory`, `ShippedConfigurationCannotRestart`).
- **The limiter needs a clock past the epoch.** A window that starts at tick zero looks unused, and any
  number of failures is admitted (`EpochClockDefeatsTheLimiter`). The bound of eight failures per
  sliding minute holds over all runs exactly for clocks that start at the epoch or later
  (`BoundHoldsExactlyPastTheEpoch`), and eight is reached; the constant in the code is five per window.
- **The encoder's 32-bit position** ends the loop exactly up to 2^32 - 1 bytes
  (`EncoderStopsExactlyBelowTheLimit`).
- **A range whose first position is outside the file is refused (416) before the rest is read**, so
  `bytes=100-abc` on a file of 100 bytes is not ignored as malformed (`OutsideStartsAreRefused`);
  and first > last is refused, as `src/server/tests/unit_tests.cpp:166` asks, where section 14.1.2 of
  RFC 9110 would have it ignored (`ReversedBoundsAreRefused`).
- **A rolling file can exceed its limit after failed writes.** Bytes of a write that stopped short, or
  of a complete one with the stream's error flag set, are in the file but not in the size counter
  (`TwoShortWritesExceedFour`). Every file is at most the limit or a single non-empty chunk exactly if no
  failed write leaves bytes behind (`LimitHoldsExactly`); otherwise the bound holds for the bytes of
  the other writes (`FilesStayWithinLimit`).
- **A rotation may give up the oldest backup file and then fail, or give it up with no current file to
  make room in** (`RotationCanFailAfterDropping`, `OversizedMessageDropsWithoutCurrentFile`). The reader
  misses something exactly if there was no room, the last place held something, and its removal or
  replacement succeeded (`RotationDropsExactly`).
- **A metadata snapshot can be saved that start-up refuses**, because an insert does not look at what
  the reader will ask. Start-up after a crash succeeds exactly if the records saved are acceptable
  (`CrashIsAtomic`), and always if only acceptable ones are inserted (`RestartAlwaysSucceeds`).

## Model

| member | source | states |
|---|---|---|
| PoolProtocol.ReachableIsInv | log_system/logs_code/ThreadPool.hpp:37-107 | in every run, with spurious wakeups and TryEnqueue: while a worker sleeps, waiting tasks are at most the notifications still to be sent plus the workers about to look; while not stopping, the same for free slots and blocked callers; tasks leave in the order of acceptance, each is waiting, with one worker, or finished, and the queue keeps its limit |
| PoolProtocol.StepKeepsTaskWakeups | log_system/logs_code/ThreadPool.hpp:46-70 | no single section or notification loses a task wakeup |
| PoolProtocol.StepKeepsSpaceWakeups | log_system/logs_code/ThreadPool.hpp:89-107 | no single section or notification loses a wakeup for a free slot |
| PoolProtocol.StepKeepsTasks | log_system/logs_code/ThreadPool.hpp:53-105 | order, ownership and the queue limit are kept by each step |
| PoolProtocol.QueuedTaskIsNotStranded | log_system/logs_code/ThreadPool.hpp:95-106 | while a task waits, some thread can take a step that needs no arrival and no spurious wakeup; `WorkIsBounded` and `QuietPoolHasDoneItsWork` bound how long it waits |
| PoolProtocol.BlockedCallerIsNotStranded | log_system/logs_code/ThreadPool.hpp:46-56 | the same while an Enqueue caller is blocked |
| PoolProtocol.WorkIsBounded | log_system/logs_code/ThreadPool.hpp:46-106 | a running pool makes at most eight steps for each call made to it and two for each spurious wakeup, beyond the effort there was, whatever the schedule |
| PoolProtocol.QuietPoolHasDoneItsWork | log_system/logs_code/ThreadPool.hpp:46-106 | when no thread of a running pool can step, the queue is empty, every caller has returned, and every accepted task was taken in order and run exactly once |
| PoolProtocol.EnqueueNeverFails | log_system/logs_code/ThreadPool.hpp:46-57 | in a run without the destructor and without TryEnqueue no caller is refused |
| PoolProtocol.FewCallsAreNeverRefused | log_system/logs_code/ThreadPool.hpp:46-70 | in a run without the destructor and with no more calls than the queue has places, TryEnqueue included, no caller is refused |
| PoolProtocol.EveryCallIsServed | log_system/logs_code/ThreadPool.hpp:37-107 | under either of these, when no thread can step, the tasks finished are exactly those of the calls, each once |
| PoolProtocol.RefusalHasAReason | log_system/logs_code/ThreadPool.hpp:51-66 | a call is refused only by a stopping pool, or by TryEnqueue on a full queue |
| PoolProtocol.DestructorIsNotStuck | log_system/logs_code/ThreadPool.hpp:73-86 | from the moment it sets the flag until it returns, the destructor or a thread it waits for can step |
| PoolProtocol.DestructionTerminates | log_system/logs_code/ThreadPool.hpp:73-107 | with no new callers a stopping pool makes at most Remaining steps, whatever the schedule |
| PoolProtocol.DestroyedMeansDrained | log_system/logs_code/ThreadPool.hpp:73-107 | when the destructor has returned the queue is empty, every accepted task was taken in order and finished exactly once |
| PoolProtocol.CreatedIsInv | log_system/logs_code/ThreadPool.hpp:19-32 | a pool the constructor accepts starts within all invariants |
| ThreadPool.Pool.constructor | log_system/logs_code/ThreadPool.hpp:19-32 | the object starts as the machine does |
| ThreadPool.Pool.EnqueueSection | log_system/logs_code/ThreadPool.hpp:46-54 | Enqueue throws exactly if the pool is stopping, waits exactly if it runs with a full queue, and else the task is queued last |
| ThreadPool.Pool.TryEnqueue | log_system/logs_code/ThreadPool.hpp:60-71 | true exactly if the pool runs and has a place, and then the task is queued last |
| ThreadPool.Pool.NotifyOneTask | log_system/logs_code/ThreadPool.hpp:55 | notify_one wakes some sleeping worker, if there is one |
| ThreadPool.Pool.WorkerSection | log_system/logs_code/ThreadPool.hpp:94-103 | a worker sleeps, leaves, or takes the oldest task |
| ThreadPool.Pool.NotifyOneSpace | log_system/logs_code/ThreadPool.hpp:104-105 | notify_one wakes some blocked caller, if there is one, and the task runs |
| ThreadPool.Pool.StopSection | log_system/logs_code/ThreadPool.hpp:75-78 | the destructor's locked section |
| ThreadPool.Pool.NotifyAllTasks | log_system/logs_code/ThreadPool.hpp:79 | every sleeping worker is woken |
| ThreadPool.Pool.NotifyAllSpace | log_system/logs_code/ThreadPool.hpp:80 | every blocked caller is woken |
| AsyncBuffer.GrownIsEnoughAndBounded | log_system/logs_code/AsyncBuffer.hpp:63-77 | growth, doubling or linear, ends at a capacity that fits the request, never leaves size_t, and overshoots by a bounded slack |
| AsyncBuffer.Buffer.EnsureWritable | log_system/logs_code/AsyncBuffer.hpp:56-78 | the growth loop ends with room for the request and keeps what the buffer holds, or reports the overflow and changes nothing |
| AsyncBuffer.Buffer.CopyIn | log_system/logs_code/AsyncBuffer.hpp:32 | the bytes stand behind what the buffer held, which stays |
| AsyncBuffer.Buffer.Push | log_system/logs_code/AsyncBuffer.hpp:25-34 | appends exactly the bytes, or throws and changes nothing; null data and overflow are the only failures |
| AsyncBuffer.Buffer.Swap | log_system/logs_code/AsyncBuffer.hpp:42-47 | exchanges contents and storage |
| AsyncBuffer.Buffer.Reset | log_system/logs_code/AsyncBuffer.hpp:49-53 | empties the buffer and keeps its storage |
| AsyncBuffer.Buffer.IsEmpty | log_system/logs_code/AsyncBuffer.hpp:36 | true exactly if there is nothing to read |
| AsyncBuffer.Buffer.WriteableSize | log_system/logs_code/AsyncBuffer.hpp:38 | capacity less what is held |
| AsyncBuffer.Buffer.constructor | log_system/logs_code/AsyncBuffer.hpp:18-23 | starts empty with the configured size |
| AsyncProtocol.ReachableIsInv | log_system/logs_code/AsyncWorker.hpp:38-90 | conservation, wait-set, shutdown and capacity invariants hold in every interleaving of any number of Push and Stop callers with the consumer |
| AsyncProtocol.BytesAreConserved | log_system/logs_code/AsyncWorker.hpp:38-90 | flushed bytes, bytes in flight and bytes in the producer buffer are together the accepted messages in lock order |
| AsyncProtocol.BatchesAreWholeMessages | log_system/logs_code/AsyncWorker.hpp:82-88 | each flush gets a non-empty run of whole messages, in accepted order |
| AsyncProtocol.NoDeadlock | log_system/logs_code/AsyncWorker.hpp:43-83 | while bytes are unflushed or a producer sleeps, the consumer thread itself can step |
| AsyncProtocol.SwapComesCloser | log_system/logs_code/AsyncWorker.hpp:75-89 | with bytes waiting no step of anybody moves the swap further away, and the swap wakes every sleeping producer to a predicate that holds |
| AsyncProtocol.ExitMeansDrained | log_system/logs_code/AsyncWorker.hpp:80-88 | when the consumer thread has left, everything accepted has been flushed |
| AsyncProtocol.JoinedStopMeansDrained | log_system/logs_code/AsyncWorker.hpp:56-68 | the Stop call that joins returns only after everything accepted was flushed (later Stop calls return at once) |
| AsyncProtocol.RefusedOnlyWhenStopping | log_system/logs_code/AsyncWorker.hpp:41-53 | a Push returns false only because of a Stop, never for lack of room |
| AsyncProtocol.QuietWorkerHasFlushedAll | log_system/logs_code/AsyncWorker.hpp:38-90 | in a run without Stop, when neither consumer nor Push can step, every pushed message whose call did not throw is accepted, as a multiset of the calls, and all of it is flushed |
| AsyncProtocol.ThrowsOnlyOnOverflow | log_system/logs_code/AsyncBuffer.hpp:60-61 | a Push throws only if more bytes were pushed altogether than size_t counts, and never in safe mode |
| AsyncProtocol.NothingAcceptedAfterStop | log_system/logs_code/AsyncWorker.hpp:48-49 | once the flag is set nothing more is accepted, and after the thread's exit nothing more is flushed |
| AsyncProtocol.StopTerminates | log_system/logs_code/AsyncWorker.hpp:56-90 | a stopping worker with no new callers takes a bounded number of steps, spurious wakeups included |
| AsyncProtocol.StopNeverSticks | log_system/logs_code/AsyncWorker.hpp:56-68 | until the first Stop caller has joined, some thread can take a step that is no spurious wakeup |
| AsyncProtocol.MemoryIsBounded | log_system/logs_code/AsyncWorker.hpp:41-51 | in safe mode both capacities stay within max(buffer_size, (L-1) + max(min(L-1, threshold-1), linear_growth)) for longest message L, over every run |
| AsyncProtocol.StepKeepsSleepers | log_system/logs_code/AsyncWorker.hpp:43-52 | a sleeping consumer means an empty buffer and a sleeping producer means a message that does not fit, unless a stop notification is still to come |
| AsyncWorker.Worker.constructor | log_system/logs_code/AsyncWorker.hpp:26-31 | starts as the machine does |
| AsyncWorker.Worker.PushSection | log_system/logs_code/AsyncWorker.hpp:40-53 | Push waits exactly if safe, running and without room, returns false exactly if stopping, throws exactly on overflow, and else the bytes stand behind the buffer's |
| AsyncWorker.Worker.Deliver | log_system/logs_code/AsyncWorker.hpp:51-53 | the append and the notification, or the append's exception, as the machine says |
| AsyncWorker.Worker.Store | log_system/logs_code/AsyncWorker.hpp:51 | one append to the producer buffer, with the capacity growth decides |
| AsyncWorker.Worker.ConsumerSection | log_system/logs_code/AsyncWorker.hpp:76-84 | the consumer swaps exactly if there is something to read, and else leaves or sleeps by whether the worker stops |
| AsyncWorker.Worker.Callback | log_system/logs_code/AsyncWorker.hpp:86-87 | the callback gets the consumer buffer if it is not empty |
| AsyncWorker.Worker.ResetBuffer | log_system/logs_code/AsyncWorker.hpp:88 | the consumer buffer is emptied for the next swap |
| AsyncWorker.Worker.StopSection | log_system/logs_code/AsyncWorker.hpp:59-63 | only the first caller goes on to notify and join |
| AsyncWorker.Worker.NotifyStop | log_system/logs_code/AsyncWorker.hpp:64-65 | the two notify_all calls of the first caller |
| AsyncWorker.Worker.WakeAllProducers | log_system/logs_code/AsyncWorker.hpp:83 | every sleeping producer becomes ready and nobody else changes |
| RollingLog.RollFileFlush.constructor | log_system/logs_code/LogFlush.hpp:102-109 | starts with no file open |
| RollingLog.RollFileFlush.EnsureFile | log_system/logs_code/LogFlush.hpp:131-158 | keeps the file if it is empty or the data fits, else closes it and opens a new one, which may fail |
| RollingLog.RollFileFlush.WriteAll | log_system/logs_code/LogFlush.hpp:63-76 | the loop writes what its calls take, up to the first that takes nothing; success means all of it and a clear error flag |
| RollingLog.RollFileFlush.Flush | log_system/logs_code/LogFlush.hpp:117-128 | one flush is the specified step, and data for which every call succeeds stands behind all that was in the files, whatever failed before |
| RollingLog.FilesStayWithinLimit | log_system/logs_code/LogFlush.hpp:117-158 | whatever fails, in each file the bytes of the writes that did not fail are at most the limit, or one chunk |
| RollingLog.LimitHoldsExactly | log_system/logs_code/LogFlush.hpp:117-158 | over all batches and permitted outcomes every file is at most the limit or a single non-empty chunk, if and only if no permitted failed write leaves bytes behind |
| RollingLog.NoneLostIsWithin | log_system/logs_code/LogFlush.hpp:133-136 | where no failed write left bytes, each file is at most the limit or a single non-empty chunk |
| RollingLog.LeftoversBreakTheLimit | log_system/logs_code/LogFlush.hpp:121-126 | one failing outcome that leaves bytes, repeated, exceeds any limit with many chunks |
| RollingLog.TwoShortWritesExceedFour | log_system/logs_code/LogFlush.hpp:121-126 | two writes that stop short fill one file beyond its limit |
| RollingLog.FilesHoldWhatWasWritten | log_system/logs_code/LogFlush.hpp:117-158 | whatever fails, the files in creation order are exactly what was written |
| RollingLog.SuccessAppends | log_system/logs_code/LogFlush.hpp:117-128 | from any state, also after failures, a flush that meets no failure appends its batch to the files |
| RollingLog.SuccessRolls | log_system/logs_code/LogFlush.hpp:117-128 | with no failure the sink is the pure rolling function of the batches |
| RollingLog.FilesConcatenateToStream | log_system/logs_code/LogFlush.hpp:117-158 | with no failure the files in order are the stream and no batch is split |
| RollingLog.FilesArePacked | log_system/logs_code/LogFlush.hpp:133-145 | each file after the first begins with the batch that did not fit behind the one before |
| RollingLog.PairsExceedLimit | log_system/logs_code/LogFlush.hpp:133-136 | neighbouring files together exceed the limit, so k files hold more than k/2 limits |
| RollingLog.FileCountIsBounded | log_system/logs_code/LogFlush.hpp:131-158 | there are at most 2 * (total / max_size) + 1 files |
| LogPipeline.NoMessageIsSplit | log_system/logs_code/AsyncWorker.hpp:82-88 | worker and sink composed: each file is a run of whole accepted messages, the files follow the accepted order, and after the thread's exit they hold every message |
| BackupLog.BackupFileWriter.constructor | log_system/logs_code/backlog/ServerBackupLog.cpp:45-51 | starts with nothing written |
| BackupLog.BackupFileWriter.RotateIfNeeded | log_system/logs_code/backlog/ServerBackupLog.cpp:87-119 | the rotation is the specified one, whatever calls fail: nothing changes if there is room, the last file is given up exactly if there was none and its removal or replacement succeeded, everything else stays readable in order, and success leaves room |
| BackupLog.BackupFileWriter.Cascade | log_system/logs_code/backlog/ServerBackupLog.cpp:107-118 | the rename loop is the specified cascade and stops at the first error |
| BackupLog.BackupFileWriter.MoveUp | log_system/logs_code/backlog/ServerBackupLog.cpp:109-114 | one place of the cascade: a rename, nothing to rename, or an error that moves nothing |
| BackupLog.BackupFileWriter.Write | log_system/logs_code/backlog/ServerBackupLog.cpp:53-84 | the whole new state of files and log for any failures: the message and its newline exactly when it reports success, else what reached the file; oldest data goes only as the rotation says; at most N+1 files, each at most max_size + 1 bytes or a single record |
| BackupLog.RotationDropsExactly | log_system/logs_code/backlog/ServerBackupLog.cpp:87-119 | the reader misses something after a rotation if and only if there was no room, the last place held something, and it was removed or renamed over; then exactly that is missing |
| BackupLog.RotationKeepsSound | log_system/logs_code/backlog/ServerBackupLog.cpp:87-119 | a rotation under any failures keeps a suffix of the log, the number and the sizes of files, and leaves room if it succeeds |
| BackupLog.RotationCanFailAfterDropping | log_system/logs_code/backlog/ServerBackupLog.cpp:104-114 | a rotation whose removal works and whose first rename does not has lost the oldest file and fails |
| BackupLog.OversizedMessageDropsWithoutCurrentFile | log_system/logs_code/backlog/ServerBackupLog.cpp:95-105 | a message above the limit costs the oldest file even without a current one |
| BackupLog.QuietRotationMovesAllUp | log_system/logs_code/backlog/ServerBackupLog.cpp:104-117 | a rotation that is needed and meets no failure moves every file up by exactly one place |
| BackupLog.ReplacingCascadeKeepsSound | log_system/logs_code/backlog/ServerBackupLog.cpp:107-118 | a cascade that renames over the last file loses exactly that file |
| BackupLog.CascadeKeepsSound | log_system/logs_code/backlog/ServerBackupLog.cpp:107-118 | below the last place the cascade loses nothing, wherever it stops, and frees the current place if it succeeds |
| BackupLog.MoveKeepsSound | log_system/logs_code/backlog/ServerBackupLog.cpp:107-118 | a rename of the cascade keeps suffix, count and sizes |
| BackupLog.RotateOneMore | log_system/logs_code/backlog/ServerBackupLog.cpp:107-117 | one more rename takes the rotation one place further down |
| BackupLog.BackupFileWriter.Append | log_system/logs_code/backlog/ServerBackupLog.cpp:59-83 | the record goes behind the current file's content |
| BackupLog.BackupFileWriter.Transfer | log_system/logs_code/backlog/ServerBackupLog.cpp:63-74 | the fwrite loop gets out what its calls take, up to the first that takes nothing |
| BackupLog.MoveKeepsReading | log_system/logs_code/backlog/ServerBackupLog.cpp:107-117 | moving a file into the free place above changes nothing for the reader |
| BackupLog.MoveOntoLast | log_system/logs_code/backlog/ServerBackupLog.cpp:107-114 | moving onto the last place drops exactly what it held |
| BackupLog.RemoveKeepsReading | log_system/logs_code/backlog/ServerBackupLog.cpp:104-105 | removing the last file drops exactly what it held |
| BackupLog.AppendKeepsSound | log_system/logs_code/backlog/ServerBackupLog.cpp:63-78 | an append that fits, newline aside, keeps suffix, count and sizes |
| BackupServer.EveryRunKeepsInv | log_system/logs_code/backlog/ServerBackupLog.cpp:169-223 | in every interleaving the counter equals live handlers plus the acceptor's slot, live handlers never exceed the maximum, and each accepted socket is with the acceptor, with one handler, or closed once |
| BackupServer.StepKeepsInv | log_system/logs_code/backlog/ServerBackupLog.cpp:187-217 | each atomic operation, close, thread start or its failure keeps that |
| BackupServer.FewConnectionsAreServed | log_system/logs_code/backlog/ServerBackupLog.cpp:187-211 | while no more connections were accepted than the limit, none is refused unless its name or its thread cannot be had, and each has its handler |
| BackupServer.QuietServerHasClosedAll | log_system/logs_code/backlog/ServerBackupLog.cpp:30-35 | when all handlers have ended the counter is zero and every accepted socket was closed exactly once |
| BackupServer.TcpServer.constructor | log_system/logs_code/backlog/ServerBackupLog.cpp:129-135 | starts with nobody connected |
| BackupServer.TcpServer.FetchAdd | log_system/logs_code/backlog/ServerBackupLog.cpp:187-188 | the 64-bit counter grows by one and does not wrap |
| BackupServer.TcpServer.FetchSub | log_system/logs_code/backlog/ServerBackupLog.cpp:34 | the 64-bit counter falls by one and does not wrap |
| BackupServer.TcpServer.AcceptConnection | log_system/logs_code/backlog/ServerBackupLog.cpp:175-178 | a new socket is in the acceptor's hands |
| BackupServer.TcpServer.CountConnection | log_system/logs_code/backlog/ServerBackupLog.cpp:187-188 | the acceptor takes a slot and keeps the old count |
| BackupServer.TcpServer.CompareWithLimit | log_system/logs_code/backlog/ServerBackupLog.cpp:189-190 | refused exactly if the old count has reached the limit, whatever handlers do meanwhile |
| BackupServer.TcpServer.Detach | log_system/logs_code/backlog/ServerBackupLog.cpp:196-213 | a handler takes over socket and slot, or the acceptor keeps both to give them up |
| BackupServer.TcpServer.GiveSlotBack | log_system/logs_code/backlog/ServerBackupLog.cpp:191 | the slot is returned before the socket is closed |
| BackupServer.TcpServer.CloseConnection | log_system/logs_code/backlog/ServerBackupLog.cpp:192 | the refused socket is closed |
| BackupServer.TcpServer.CloseHandled | log_system/logs_code/backlog/ServerBackupLog.cpp:32-33 | the guard closes the handler's socket |
| BackupServer.TcpServer.LeaveHandler | log_system/logs_code/backlog/ServerBackupLog.cpp:34 | then it returns the slot |
| LoginRateLimiter.Limiter.constructor | src/server/Service.cpp:182-183 | starts with no call made and nothing recorded |
| LoginRateLimiter.Limiter.Allow | src/server/Service.cpp:138-150 | one more call of the run: an address with fewer than five failures since its last success, or whose last failure is a minute old, is admitted, and the fifth failure in a minute blocks for exactly a minute; admits unless a block is running, and forgets a record whose window is over |
| LoginRateLimiter.Limiter.Failure | src/server/Service.cpp:152-166 | one more call of the run: counts the failure in its window and blocks from the fifth on |
| LoginRateLimiter.Limiter.Success | src/server/Service.cpp:168-172 | one more call of the run: the address is forgotten, so that its failures count anew |
| LoginRateLimiter.AtMostEightFailuresPerMinute | src/server/Service.cpp:138-166 | over every run of interleaved addresses with a clock past the epoch, one address has at most eight failures in any half-open minute unless it logged in |
| LoginRateLimiter.EightFailuresArePossible | src/server/Service.cpp:138-166 | the bound is sharp |
| LoginRateLimiter.EpochClockDefeatsTheLimiter | src/server/Service.cpp:157-158 | at tick zero any number of failures is admitted |
| LoginRateLimiter.BoundHoldsExactlyPastTheEpoch | src/server/Service.cpp:138-166 | the bound of eight holds over all runs if and only if the clock starts at the epoch or later |
| LoginRateLimiter.FewFailuresAreAdmitted | src/server/Service.cpp:141-149 | over every run an address with fewer than five failures since its last success is admitted |
| LoginRateLimiter.WaitingIsEnough | src/server/Service.cpp:145-149 | over every run an address whose last failure is at least 60 seconds old is admitted, whatever went before |
| LoginRateLimiter.FifthFailureBlocks | src/server/Service.cpp:163-165 | five failures within 60 seconds block the address for exactly 60 seconds from the fifth |
| LoginRateLimiter.RefusedExactlyWhileBlocked | src/server/Service.cpp:145-166 | an address is refused exactly during the minute after a failure that was at least the fifth of its window |
| LoginRateLimiter.RunsAreTagged | src/server/Service.cpp:702-720 | each failure of a run has a number in a window, chained to the one before, and the record kept is that of the last |
| LoginRateLimiter.NineSpanAMinute | src/server/Service.cpp:157-165 | any nine consecutive failures spread over at least a minute, across windows |
| LoginRateLimiter.FailureAddsTag | src/server/Service.cpp:152-166 | one admitted failure extends the chain by what the record says |
| Base64.Encode | src/server/base64.cpp:143-192 | the loop computes the encoding, and its 32-bit position does not wrap below 2^32 bytes |
| Base64.AppendGroup | src/server/base64.cpp:166-185 | one round writes one group with its padding |
| Base64.EncoderStopsExactlyBelowTheLimit | src/server/base64.cpp:163-188 | the position counter reaches the length exactly for lengths below 2^32 |
| Base64.MasksAreDivisions | src/server/base64.cpp:166-182 | the masks and shifts of encoder and decoder are the divisions of the model |
| Base64.SextetsSpellTheBits | src/server/base64.cpp:166-173 | four sextets are the 24 bits of three bytes, as section 4 of RFC 4648 asks |
| Base64.EncodedLength | src/server/base64.cpp:145 | the encoding has 4 * ceil(n / 3) characters |
| Base64.Decode | src/server/base64.cpp:195-273 | the decoding loop, with bad character and missing character as outcomes |
| Base64.ValidTextsAreRead | src/server/base64.cpp:225-270 | every text the validator accepts decodes to the leading bits of its characters, as many whole bytes as they make |
| Base64.PaddingDoesNotMatter | src/server/base64.cpp:246-260 | a valid text decodes to the same bytes without its padding |
| Base64.UnpaddedRoundTrip | src/server/base64.cpp:143-273 | the encoding without its padding is valid and decodes to the bytes |
| Base64.EncodedSpellsTheBits | src/server/base64.cpp:166-185 | the characters of an encoding spell the bits of the bytes in order, section 4 of RFC 4648 |
| Base64.LastCharacterIsFilled | src/server/base64.cpp:176-182 | what the bytes leave free in a last character is zero bits |
| Base64.EncodedUsesItsAlphabet | src/server/base64.cpp:158 | an encoding uses one alphabet and its own padding character |
| Base64.AlphabetsAreTheStandardOnes | src/server/base64.cpp:44-53 | the alphabets are tables 1 and 2 of RFC 4648; the padding of the second is a dot |
| Base64.DataCharsAreTheAlphabets | src/server/base64.cpp:73-78 | the validator's data characters are those of the two alphabets and no others |
| Base64.ValidExactly | src/server/base64.cpp:80-103 | data characters with none, one or two equal padding characters are valid exactly if no group is left with one character, or the last group is full |
| Base64.RoundTrip | src/server/base64.cpp:143-273 | decoding gives back the encoded bytes, for both alphabets and every length |
| Base64.IsValidBase64 | src/server/base64.cpp:80-103 | accepts exactly: data characters, then at most two equal padding characters that fill the last group, and no lone last character |
| Base64.WellFormedDecodes | src/server/base64.cpp:225-270 | on a valid text the decoder never fails and yields floor(3 * (size - padding) / 4) bytes |
| Base64.DecodeChecked | src/server/base64.cpp:279-293 | true exactly on valid texts, with the leading bits of their characters as output; otherwise the output is empty |
| Base64.EncodedIsWellFormed | src/server/base64.cpp:165-188 | what the encoder writes passes the validator |
| Base64.InsertLineBreaks | src/server/base64.cpp:105-121 | the scan of the growing text ends and gives the broken text |
| Base64.BreaksStandAtTheLineEnds | src/server/base64.cpp:113-118 | ceil(n/d) - 1 breaks, each after exactly d characters, none at the end |
| Base64.BreakingLosesNothing | src/server/base64.cpp:205-207 | removing the breaks gives the text back |
| Base64.LineBreakRoundTrip | src/server/base64.cpp:123-136 | PEM and MIME output decoded with breaks removed gives the bytes back |
| HttpRange.ParseUnsigned | src/server/Range.hpp:23-31 | reads exactly the non-empty digit strings whose value is below 2^64 |
| HttpRange.OversizedNumbersAreNotRead | src/server/Range.hpp:29-30 | a printed number is read back exactly if it is below 2^64 |
| HttpRange.PrintedDenotes | src/server/Service.cpp:1112-1114 | what is printed denotes the number |
| HttpRange.SpecifiersAreAnswered | src/server/Range.hpp:33-90 | every specifier, however its digits are written, is answered by exactly the positions it selects below the file size |
| HttpRange.OnlySpecifiersAreAnswered | src/server/Range.hpp:37-77 | every other header is ignored, save those that start outside the file |
| HttpRange.OutsideStartsAreRefused | src/server/Range.hpp:69-73 | a first position at or past the end is refused whatever follows |
| HttpRange.PartialIsInsideFile | src/server/Range.hpp:83-89 | a partial range is non-empty and ends inside the file, without overflow |
| HttpRange.ReversedBoundsAreRefused | src/server/Range.hpp:78-82 | first > last is refused |
| HttpRange.ContentRangeParsesBack | src/server/Service.cpp:1105-1115 | the bounds printed in Content-Range, sent as a request, select the same range |
| StoragePaths.NormalOfJoined | src/server/Util.hpp:269-273 | the normal form of a file joined to a directory is the reduced directory and the name |
| StoragePaths.ReducedIsNormal | src/server/DataManager.cpp:122-129 | lexically_normal leaves no dot, and a dot-dot only in front and never below the root |
| StoragePaths.NormalFormStays | src/server/DataManager.cpp:122-129 | names in normal form stay as they are |
| StoragePaths.DotsVanish | src/server/DataManager.cpp:122-129 | a name and a dot-dot after it cancel out, and a dot is nothing |
| StoragePaths.ParentIsDirectory | src/server/DataManager.cpp:122-133 | the parent of a stored file equals its directory's normal form exactly for usable directories |
| StoragePaths.TrailingSlashIsUnusable | src/server/DataManager.cpp:130-131 | a trailing separator makes a directory unusable unless it reduces to the root or ends in dot-dot |
| StorageMetadata.AcceptedIsPlaced | src/server/DataManager.cpp:63-75 | what the reader accepts has one entry per record, unique URLs, field values in range, each placed as the rules ask |
| StorageMetadata.AcceptedIsWritten | src/server/DataManager.cpp:80-117 | an accepted record has exactly the values of its members, and the derived type only where none is given |
| StorageMetadata.UntypedRecordsAreRecognised | src/server/DataManager.cpp:105-117 | a record without a type is read with its own type if and only if it is of the deep type or the two directories differ |
| StorageMetadata.AcceptedMatchesConfiguration | src/server/DataManager.cpp:122-135 | an accepted record's URL is prefix and file name, and its parent the directory of its type |
| StorageMetadata.ItemsRoundTrip | src/server/DataManager.cpp:138-153 | records written in any order are read back as the same table, or refused if one is not placed |
| StorageMetadata.SnapshotLoads | src/server/DataManager.cpp:51-75 | a snapshot of a table loads as that table exactly if all its records are placed |
| StorageMetadata.SnapshotRoundTrip | src/server/DataManager.cpp:43-151 | a snapshot of uploads loads as the same table exactly if the directories in use are usable |
| StorageMetadata.ShippedConfigurationCannotRestart | src/server/Storage.conf:5-6 | with directories named ./x/ no snapshot that holds an upload is accepted |
| StorageMetadata.NewInfoIsStored | src/server/DataManager.cpp:12-34 | the record an upload makes has stat's times and size, the prefix and file name as URL and the joined path, or stat has failed |
| StorageMetadata.PrefixMustLoad | src/server/DataManager.cpp:64-70 | one bad or repeated record spoils the document |
| StorageMetadata.LoadedIsGood | src/server/DataManager.cpp:63-75 | a loaded table has acceptable records only, each under its URL |
| StorageMetadata.ItemIsRead | src/server/DataManager.cpp:77-151 | a saved record is read back exactly if it is within range and placed, else refused |
| StorageMetadata.LoadsIfGood | src/server/DataManager.cpp:43-75 | a snapshot that stands for a table loads as that table if and only if all its records are acceptable |
| StorageMetadata.StandsForOne | src/server/DataManager.cpp:138-153 | a snapshot stands for one table only, even where the reader refuses it |
| DataManager.Manager.constructor | src/server/DataManager.cpp:36-41 | starts with the table the snapshot stands for; start-up fails exactly if the snapshot is refused |
| DataManager.Manager.InitLoad | src/server/DataManager.cpp:43-75 | a missing, null or empty snapshot is an empty table, an unreadable or malformed one is refused; succeeds exactly on documents the rules accept, with their table |
| DataManager.Manager.LoadArray | src/server/DataManager.cpp:63-71 | the loop over the records stops at the first bad one |
| DataManager.Manager.ItemsFor | src/server/DataManager.cpp:138-153 | the saved array has one item per record in the table's own order |
| DataManager.Manager.Persist | src/server/DataManager.cpp:155-181 | success means the snapshot file holds exactly the table; a failure at any call leaves it untouched |
| DataManager.Manager.LockMutation | src/server/DataManager.cpp:185 | the mutation mutex is taken, if it is free |
| DataManager.Manager.CopyTable | src/server/DataManager.cpp:186-193 | the copy is checked and edited, or the call returns with its error |
| DataManager.Manager.Save | src/server/DataManager.cpp:194-195 | the edited copy is the new snapshot, or the call returns with its error |
| DataManager.Manager.Publish | src/server/DataManager.cpp:197-201 | the edited copy becomes the table, and OK is returned |
| DataManager.Manager.Perform | src/server/DataManager.cpp:185-202 | from the mutex on: OK means that memory and snapshot have both taken the mutation, an error that neither has |
| DataManager.Manager.Mutate | src/server/DataManager.cpp:183-223 | a mutation nobody interferes with has the verdict of the sequential map, or could not be saved |
| DataManager.Manager.Insert | src/server/DataManager.cpp:183-203 | OK adds the record to memory and snapshot, an error changes neither, and an acceptable record keeps a restart finding the table in memory |
| DataManager.Manager.Delete | src/server/DataManager.cpp:205-223 | the same for removal |
| DataManager.Manager.GetOneByURL | src/server/DataManager.cpp:225-235 | found exactly if the URL is in the table, and then its record; it is one reader's step of the protocol |
| DataManager.Manager.GetAll | src/server/DataManager.cpp:237-247 | one reader's step of the protocol, and the list has every record of that table once |
| DataManager.Manager.Restart | src/server/DataManager.cpp:36-75 | a new process on the snapshot left behind: it starts exactly if the snapshot is accepted, and then as after a crash |
| MetadataProtocol.ReachableIsInv | src/server/DataManager.cpp:183-247 | over every interleaving of callers and any number of crashes: one owner of the mutation mutex, memory the replay of the history, the snapshot standing for memory or one mutation ahead |
| MetadataProtocol.DiskFollowsMemory | src/server/DataManager.cpp:170-201 | memory and snapshot stand for the same table exactly when no mutation is between rename and swap; there the snapshot is one mutation ahead |
| MetadataProtocol.CrashIsAtomic | src/server/DataManager.cpp:43-75 | after a crash at any step the snapshot stands for the table from before or after the one mutation in flight; start-up succeeds if and only if its records are acceptable, and then has that table |
| MetadataProtocol.RestartAlwaysSucceeds | src/server/DataManager.cpp:43-75 | if every record inserted is acceptable, start-up succeeds after a crash at any step |
| MetadataProtocol.CallsAreLinearized | src/server/DataManager.cpp:183-247 | each finished call fits a sequential map at one moment: an OK is one entry of the history, an error none, an answer that of the replay |
| MetadataProtocol.ReadersSeeLastMutations | src/server/DataManager.cpp:225-247 | a reader's answer in terms of the history alone: what the last insert of a URL put there, nothing after a delete, and else what was loaded first |
| MetadataProtocol.AcknowledgedIsDurable | src/server/DataManager.cpp:193-202 | a mutation answered with OK stays in the history through all later steps and crashes |
| MetadataProtocol.RealTimeIsRespected | src/server/DataManager.cpp:185-202 | a call made after another had finished takes effect after it |
| StorageTransaction.NothingIsLost | src/server/Service.cpp:832-972 | with safe names, under any failed calls and a crash anywhere, each durable name has a file of its own with its stored bytes, at its path or under a trash name beside it |
| StorageTransaction.NoLossExactlyForSafeNames | src/server/Service.cpp:915-972 | all runs keep all bytes if and only if no accepted name, beside another, has the trash template's shape |
| StorageTransaction.ShapedNameCanLose | src/server/Service.cpp:926-972 | otherwise a run of two uploads and three deletes loses one file's bytes |
| StorageTransaction.UploadsTouchNothing | src/server/Service.cpp:832-885 | no upload, whatever its outcome and wherever it stops, changes or removes a file that was there before |
| StorageTransaction.TablesAgree | src/server/DataManager.cpp:170-222 | memory and snapshot differ only between rename and swap, and by the one name of the request |
| StorageTransaction.RecordedIsComplete | src/server/Service.cpp:852-876 | a name becomes durable only when its complete file is at its path |
| StorageTransaction.StepKeepsLossInv | src/server/Service.cpp:832-972 | each system call keeps the assignment of files to durable names |
| StorageTransaction.StepKeepsPhaseInv | src/server/Service.cpp:832-972 | each system call leaves files and tables as its place in the request says |
| StorageTransaction.StepKeepsFrameInv | src/server/Service.cpp:832-885 | each call of an upload leaves the earlier files alone |
| StorageTransaction.UploadTouchesOwn | src/server/Service.cpp:837-884 | an upload writes and removes only paths it has made itself |
| StorageTransaction.DeleteTouchesOwn | src/server/Service.cpp:926-972 | apart from moving its file to the trash and back, a delete touches only its own trash name |
| StorageTransaction.HeldAfterRename | src/server/Service.cpp:937-953 | renaming a name's own file onto a free path keeps every name's bytes |
| StorageService.Service.constructor | src/server/Service.cpp:186-206 | the server starts on the files it finds |
| StorageService.Service.CreateTempFile | src/server/Util.hpp:281-303 | a fresh name of the template with an empty file; a failed close removes it or leaves it behind |
| StorageService.Service.SetContent | src/server/Util.hpp:171-197 | the write loop ends with the whole payload, or fails with only the temporary file changed |
| StorageService.Service.WriteSome | src/server/Util.hpp:182-190 | one write extends the written prefix of the payload, or fails and changes nothing |
| StorageService.Service.LoseTemp | src/server/Util.hpp:310-316 | the temporary name goes, or the final one is taken back as far as the calls work |
| StorageService.Service.CommitNoReplace | src/server/Util.hpp:305-321 | the file appears under a name that was free and loses its temporary one, or a failure was seen; a taken name changes nothing |
| StorageService.Service.DropTemp | src/server/Service.cpp:191-195 | the guard's destructor removes the temporary file if it can |
| StorageService.Service.Insert | src/server/DataManager.cpp:183-203 | the record is saved and then visible, or neither |
| StorageService.Service.Register | src/server/Service.cpp:864-882 | a placed file is recorded, or withdrawn after a failure of stat or metadata |
| StorageService.Service.Fill | src/server/Service.cpp:839-885 | after its temporary file exists, an upload ends with the file and record in place, or with neither table changed |
| StorageService.Service.Store | src/server/Service.cpp:832-885 | without a failed call, nothing but the new file is left |
| StorageService.Service.Upload | src/server/Service.cpp:783-885 | 201 exactly if record and complete file are both in place under a name that was free; anything else leaves both tables alone; earlier files are never touched |
| StorageService.Service.Inspect | src/server/Service.cpp:915-925 | the file is there, is not there, or cannot be inspected |
| StorageService.Service.MakeTrash | src/server/Service.cpp:926-935 | a fresh trash name beside the file, touching no other file |
| StorageService.Service.MoveAway | src/server/Service.cpp:936-944 | the file moves over the placeholder, or nothing but the placeholder changes |
| StorageService.Service.Forget | src/server/DataManager.cpp:215-222 | the deleted record leaves the snapshot and then the table in memory |
| StorageService.Service.Erase | src/server/DataManager.cpp:205-223 | the record is gone from both tables, or from neither |
| StorageService.Service.PutBack | src/server/Service.cpp:950-962 | the file returns to its path, or stays in the trash as the only copy |
| StorageService.Service.EmptyTrash | src/server/Service.cpp:971-972 | the trash is removed, at the second try if need be |
| StorageService.Service.EraseMoved | src/server/Service.cpp:947-973 | the second half of a delete: trash emptied, or file put back |
| StorageService.Service.DeleteFile | src/server/Service.cpp:926-973 | a failed delete keeps the bytes at the path or in the trash; no other file is touched |
| StorageService.Service.Delete | src/server/Service.cpp:908-973 | 200 exactly if the record is gone from both tables; without a failed call exactly its file is gone; an error keeps bytes and tables |
| StorageService.ServiceKeepsBytes | src/server/Service.cpp:783-973 | after any requests with any failures, a server whose names are safe has kept every stored byte |
| StorageService.SafeNamesArePlain | src/server/Service.cpp:427-438 | an accepted name is one plain file name without separators or control characters |
| StorageService.NameCheckIsOneConditionShort | src/server/Service.cpp:427-438 | the name check accepts names of the trash's shape; with that excluded it would be safe |

## Left out

- libevent requests, headers, cookies, HTML pages and templates: input, output and user interface; each handler starts from its checked arguments.
- OpenSSL calls, password hashing, session tokens and `SessionStore`: foreign code, and a keyed map with expiry.
- `bundle.h` compression: a stored payload is the bytes written to the file; for deep storage that is the packed form, and its packing, which may also fail, counts as part of writing.
- JSON text: a snapshot is the value tree it denotes; numbers that are not integers are not part of the tree.
- Configuration reading: the ranges it validates are preconditions (`log_system/logs_code/Util.hpp:179-183`).
- Sockets, timeouts, message formats and the remote backup client; of the backup server only the counter and the log writer.
- `UrlEncode`, `UrlDecode`, `HtmlEscape`, `Trim`, `FormatSize`, the listing and download handlers beyond `Range`: easier relatives of what is here.
- Message formatting, log levels, the logger registry and builder, and the plain file and console sinks.
- Out-of-memory exceptions, throwing callbacks, and weaker memory orderings: a locked section and an atomic operation are one step each.
- Tasks that call Enqueue on their own pool, and calls into a pool or worker after it was destroyed.
- Interrupted system calls that are tried again (EINTR): a retry changes nothing.
- Loss of data the operating system had not yet written when a machine loses power: the snapshot and the files are durable as soon as their call returns; the fsync calls that make this so are modelled only as calls that can fail.
- AsyncWorker.Worker.PushSection: Push is given data that is not null; `AsyncBuffer.Buffer.Push` models null data.
- RollingLog.RollFileFlush.EnsureFile: every file name is new, because it carries time, process and sequence number, so an opened file is empty; the `file_size` query of the new file and its error are therefore not modelled.
- BackupServer.TcpServer.Detach: inet_ntop and the start of the thread are reduced to their outcomes, and the handler's body to the destructor of its guard.
- BackupServer.TcpServer.CountConnection: with the largest size_t as the limit it takes that fewer than 2^64 - 1 handlers were ever started; below that limit nothing is asked.
- StorageTransaction: a hard link is a second copy of the file's bytes, which is the same thing here because no file is written after its first link; the two storage directories and the metadata directory are different directories; a file name stands for its URL, which is the prefix and the name (`StorageMetadata.NewInfoIsStored`).
- StorageTransaction: after a crash the server runs on with the durable table, which is what start-up finds if it accepts the snapshot (`MetadataProtocol.CrashIsAtomic`); where it refuses, the run ends there with the same files.
- StorageTransaction: mkstemp draws its six characters from digits and letters, as the GNU C library does.
- StorageService.Service.Insert: the snapshot's own temporary file and its failures are in `DataManager.Manager.Persist`; here saving is one call. ALREADY_EXISTS from Insert and NOT_FOUND from Delete cannot come up, since requests run one at a time and the handler has looked before.
- DataManager.Manager.Persist: the temporary snapshot file is a value that only the rename makes visible; a temporary file that cannot be removed stays behind unmodelled.
- MetadataProtocol: the locks are modelled by which sections exclude each other; fairness between readers and writers is not.
