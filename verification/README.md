# Two directory synchronizers, modelled and proved

The repository holds two programs that copy directories. The remote one (`nfs_manager`, `nfs_client`) copies files
between hosts with a pool of worker threads that share a bounded ring. The real-time one (`fss_manager`, `worker`)
watches directories with inotify and runs one child process for each job. Both are queues drained by concurrent
workers, and the questions are the same: is anything lost, duplicated or reordered, does everybody stop, and is the
target in the end what the source is?

`dafny verify dfyconfig.toml` checks the whole project.

## How it is laid out

Remote synchronizer:

- `SyncPairs.dfy`, `SyncBuffer.dfy`: the ring of `sync_buffer.c` as a class over an array, one critical section per
  method. `cancel` is kept as written; the condition under which it does its job is proved both ways.
- `WorkerPool.dfy`: the main thread and the workers as a step system with one program counter for each thread, an
  explicit mutex, signals sent after the unlock, and spurious wakeups.
- `NamelessPairs.dfy`: runs that lose a pool of any size to pairs without a name.
- `ByteIO.dfy`: the loops over `read` and `write` of `util.c`. A descriptor carries a script that says what each
  system call does, so a contract speaks about every schedule of short transfers, EINTR and failures.
- `Wire.dfy`: what goes over the sockets, on bytes.
- `Transfer.dfy`, `SharedTarget.dfy`: any number of workers that push files to one host, which serves its connections
  in turn; and what two of them do to one path.
- `Synchronizer.dfy`: the pool and the transfers of its workers to any number of hosts, as one system.
- `PushPull.dfy`: the commands of `nfs_client.c`, the loop of `worker_thread`, and the loop over a LIST reply.

Real-time synchronizer:

- `Jobs.dfy`, `LinkedQueues.dfy`, `JobRemoval.dfy`: the entities, the linked queue of `int_queue.c` and `job_queue.c`,
  and the walk that removes a directory's jobs, as written.
- `FileMonitor.dfy`, `WorkerSlots.dfy`, `FssManager.dfy`: the table, the slots and the event loop as classes whose
  methods are proved equal to the functions of `Scheduler.dfy`.
- `Scheduler.dfy`, `Dispatch.dfy`, `DispatchOrder.dfy`, `SchedulerRuns.dfy`: the manager's state with the slots'
  descriptors, one dispatch pass, the order it keeps, and every run.
- `Mirror.dfy`: one directory with its unread events, its jobs, its worker and its target. Copies are not atomic: a
  source that changes while it is copied leaves anything in the target.
- `Convergence.dfy`: the runs of the whole manager, seen from one directory, as runs of `Mirror`.
- `Watches.dfy`: events whose watch left the table, and directories that share a watch.
- `Worker.dfy`: the child's loop with the source at rest, and that it is one way through `Mirror`.

`Sequences.dfy` holds the facts about filters that both sides use.

## Where the code does not do what it is meant to

Each of these is kept as the code has it. Where it breaks a property, the condition under which the property holds is
proved both ways, for all inputs; several have a concrete state that shows the failure as well:

- `sync_buffer_cancel_dir` computes the new count modulo the size, so a full ring in which nothing matched reads as
  empty (`SyncBuffer.CancelIsFilterExactlyWhen`). Its report's terminator needs one slot more than the manager
  allocates when every slot holds a different location of the directory (`SyncBuffer.TerminatorFitsExactlyWhen`).
- `job_queue_remove_dir` never advances its predecessor and can set the tail to NULL
  (`JobRemoval.RemoveIsFilterExactlyWhen`). `Scheduler.Cancel` is what it is meant to do, and a run may cancel only
  where the condition holds.
- A dispatch pass that stops for lack of workers can reorder a directory's jobs
  (`DispatchOrder.PassKeepsOrderExactlyWhen`, `DispatchOrder.TwoWorkersTwoDirsCanReorder`); with more workers than
  directories no pass stops.
- A failed pipe or fork takes the slot out of the queue for good, and the console's index can be handed out as a slot
  (`Scheduler.NextSlotIsConsoleExactlyWhen`).
- A failed fork leaves the number of its closed pipe in the slot's poll entry. A later pipe can get the same number,
  and poll then reports the lost slot as well: the manager takes one worker's report for another's
  (`DispatchOrder.FailedForkCanMixReports`). Reports are those of workers exactly when no start gets such a number
  (`Dispatch.PassIsSoundExactlyWhen`, `SchedulerRuns.RunIsSoundExactlyWhen`), and a start right behind the failed fork
  always does (`Dispatch.FailedForkThenStart`).
- Nothing keeps two workers from bringing one path at the same time, and the target can then hold bytes of both files
  (`SharedTarget.SharedTargetMixes`). It is right exactly when nobody but the worker of the latest PUSH -1 has sent
  something for it since (`Transfer.FaithfulExactlyWhen`).
- A file whose name ends in a newline makes LIST send an empty line, so a pair without a name is placed
  (`Wire.TrailingNewlineIsAnEmptyName`), and its worker takes it for the end. As many such pairs as workers leave pairs
  in the ring for ever, or the producer asleep for ever (`WorkerPool.DrainsExactlyWhen`,
  `WorkerPool.AbandonedExactlyWhen`, `NamelessPairs.EveryPoolCanBeAbandoned`).
- An unread event of a directory that is cancelled and watched anew finds no entry, and the code follows a NULL pointer
  (`Watches.ReadableExactlyWhen`, `Watches.CancelAndAddLosesTheEntry`).
- Two names of one directory share a watch. All its events become jobs of the first, and the second name's target falls
  behind (`Watches.EventArrivesExactlyWhen`, `Watches.SharedWatchStaysBehind`).
- FULL deletes nothing, although the documentation says that the directories become identical
  (`Worker.FullMirrorsExactlyWhen`, `Mirror.ConvergesExactlyWhen`).
- A file's size goes over the wire as an int32_t (`Transfer.PulledWholeExactlyWhen`).
- `read_bytes` turns for ever at the end of the data (`ByteIO.ReadBytesEndsExactlyWhen`), and so do `read_line` and
  `read_wc` where errno is still EINTR from an earlier call (`ByteIO.ScanEndsExactlyWhen`).
- `file_copy` tests a variable that no write has set when the file is empty (`ByteIO.FileCopy`), so a worker can report
  a failure for a good copy (`Worker.EmptyFilesDecideTheReport`).
- A path with white space, or a name with a newline, is misread by the other side
  (`Wire.PushRoundTripExactlyWhen`, `Wire.ListRoundTripExactlyWhen`).
- The documentation says that shutdown waits for the active workers; the code also runs all the queued jobs, and that
  is what `SchedulerRuns.ShutdownIsBounded` is about.

## Model

| member | source | states |
|---|---|---|
| SyncBuffer.Buffer.constructor | Remote Directory Synchronizer/src/sync_buffer.c:25-39 | A new ring of any size, 0 included, is valid although its end index is -1, and holds nothing. |
| SyncBuffer.Buffer.Place | Remote Directory Synchronizer/src/sync_buffer.c:53-69 | One turn of the wait loop: the pair joins the end of the queue exactly when the ring is not full (never with size 0); the ring invariant is kept. |
| SyncBuffer.Buffer.Obtain | Remote Directory Synchronizer/src/sync_buffer.c:71-95 | One turn of the wait loop: the oldest pair while there is one; otherwise quit ends the worker and no quit makes it wait. |
| SyncBuffer.Buffer.FileExists | Remote Directory Synchronizer/src/sync_buffer.c:97-120 | True exactly when some waiting pair has the same file, source directory, host and port. |
| SyncBuffer.Buffer.Report | Remote Directory Synchronizer/src/sync_buffer.c:151-167 | A location joins the report unless it is in it already or the report buffer is full. |
| SyncBuffer.Buffer.Compact | Remote Directory Synchronizer/src/sync_buffer.c:127-169 | The in-place loop over the wrapped ring computes the sweep of SyncBuffer.SweepTo: slots, write index, flag and report. |
| SyncBuffer.SweepPacks | Remote Directory Synchronizer/src/sync_buffer.c:134-148 | The write index never overtakes the read index: after i pairs the kept ones are packed in order from the start, and the unread ones are untouched. |
| SyncBuffer.SweepReports | Remote Directory Synchronizer/src/sync_buffer.c:149-168 | After i pairs the flag says whether one was removed, and the report holds their distinct locations in order of first occurrence, up to the room there is. |
| SyncBuffer.Buffer.SetIndices | Remote Directory Synchronizer/src/sync_buffer.c:171-173 | The new count is the number of kept pairs, except that a full ring's count becomes 0; the ring invariant holds again. |
| SyncBuffer.Buffer.CancelDir | Remote Directory Synchronizer/src/sync_buffer.c:122-186 | The whole cancel: the slots hold the filtered queue, the contents are those of AfterCancel, the result says whether a pair was removed, and the report is the set of their locations behind which the terminator is written. |
| SyncBuffer.CancelIsFilterExactlyWhen | Remote Directory Synchronizer/src/sync_buffer.c:127-173 | Cancel filters the queue exactly when it was empty, was not full, or held a pair of the directory; otherwise the ring reads as empty although nothing matched. |
| SyncBuffer.CancelCanWipeTheRing | Remote Directory Synchronizer/src/sync_buffer.c:171-173 | A concrete full ring that loses its pair to a cancel of another directory. |
| SyncBuffer.CancelReportIsASet | Remote Directory Synchronizer/src/sync_buffer.c:130-185 | The report has no duplicates, holds exactly the locations of the removed pairs, and is empty exactly when nothing was removed. |
| SyncBuffer.TerminatorFitsExactlyWhen | Remote Directory Synchronizer/src/sync_buffer.c:182-183 | With a report buffer of the ring's size, the terminator fits unless every slot holds a pair of the directory and all their locations differ. |
| SyncBuffer.Buffer.SetQuit | Remote Directory Synchronizer/src/sync_buffer.c:188-191 | Quit is set and the queue stays what it is. |
| WorkerPool.PlaceMatchesBuffer | Remote Directory Synchronizer/src/sync_buffer.c:55-68 | The machine's place step meets SyncBuffer.Places, the contract of Buffer.Place, and owes a signal exactly when it placed. |
| WorkerPool.ObtainMatchesBuffer | Remote Directory Synchronizer/src/sync_buffer.c:73-95 | The machine's obtain step meets SyncBuffer.Obtains, the contract of Buffer.Obtain, and a worker that gets no pair exits on quit and sleeps otherwise. |
| WorkerPool.CancelMatchesBuffer | Remote Directory Synchronizer/src/sync_buffer.c:125-180 | The machine's cancel step does to the ring what Buffer.CancelDir does, and signals exactly when a pair was removed. |
| WorkerPool.MutexStep | Remote Directory Synchronizer/src/sync_buffer.c:53-95 | Every step keeps mutual exclusion: a thread is inside a critical section exactly when it owns the mutex. |
| WorkerPool.WakeStep | Remote Directory Synchronizer/src/sync_buffer.c:53-95 | No lost wakeup, with signals sent after the unlock and spurious wakeups: while a worker sleeps, the ring holds no more pairs than there are signals on the way and awake workers; a producer sleeps only on a full ring or with a signal on the way; after quit's broadcast nobody sleeps. |
| WorkerPool.RunKeepsInv | Remote Directory Synchronizer/src/nfs_manager_main.c:79-109 | Every reachable state of one main thread and any number of workers satisfies all the invariants. |
| WorkerPool.FirstInFirstOut | Remote Directory Synchronizer/src/sync_buffer.c:53-95 | Over every run, the pairs obtained so far followed by those in the ring are the placed ones without those that cancels took, in order and once each. |
| WorkerPool.CancelLosesExactlyWhen | Remote Directory Synchronizer/src/sync_buffer.c:127-173 | A cancel loses a pair of another directory exactly when it meets a full ring without a pair of its own. |
| WorkerPool.ExactCancelsLoseNothing | Remote Directory Synchronizer/src/sync_buffer.c:127-173 | Over a run whose cancels all meet that condition, no pair of another directory is ever lost. |
| WorkerPool.FullDrain | Remote Directory Synchronizer/src/nfs_manager.c:30-36 | As soon as one worker has left because of quit, the ring is empty and every placed pair that no cancel took was obtained exactly once, in order. |
| WorkerPool.DrainsExactlyWhen | Remote Directory Synchronizer/src/nfs_manager.c:30-36 | When all the workers have left, some of them left on quit, and so everything that was placed and not cancelled was obtained, exactly when fewer pairs without a name were obtained than there are workers. |
| WorkerPool.NoFileQueuedTwice | Remote Directory Synchronizer/src/nfs_manager.c:246-260 | No two pairs in the ring share file, source directory, host and port, although the mutex is free between the check and the place. |
| WorkerPool.NoDeadlock | Remote Directory Synchronizer/src/sync_buffer.c:53-95 | While the main thread is inside a command or joins its workers, some thread can move without a spurious wakeup, unless the producer sleeps on a full ring and all the workers have left. |
| WorkerPool.AbandonedExactlyWhen | Remote Directory Synchronizer/src/nfs_manager.c:33-36 | In every reachable state that exception is there exactly when the producer sleeps on a full ring, nobody is about to signal, and as many pairs without a name were obtained as there are workers. |
| WorkerPool.NamelessPairsCostWorkers | Remote Directory Synchronizer/src/nfs_manager.c:33-36 | In every reachable state the workers that have left, or are about to leave, because of a pair without a name are as many as such pairs were obtained. |
| WorkerPool.AbandonedForEver | Remote Directory Synchronizer/src/sync_buffer.c:53-69 | From such a state on nothing but spurious wakeups of the producer is possible: its pair is never placed, and ring and workers never change. |
| NamelessPairs.EveryPoolCanBeAbandoned | Remote Directory Synchronizer/src/nfs_manager.c:30-36 | Whatever the number of workers and the size of the ring: a run in which as many pairs without a name as there are workers and then one pair more than the ring holds end in that state. |
| WorkerPool.QuietOnlyWhenEmpty | Remote Directory Synchronizer/src/sync_buffer.c:71-95 | With the main thread idle, all threads rest only when the ring is empty or every worker has left. |
| WorkerPool.ShutdownIsBounded | Remote Directory Synchronizer/src/sync_buffer.c:188-193 | After quit every step lowers a measure, so only boundedly many steps remain. |
| ByteIO.ReadBytes | Remote Directory Synchronizer/src/util.c:96-118 | For every schedule of short reads, EINTR and failures: the next n bytes are in the buffer in order and 0 is returned, or a call failed and a shorter prefix is there. |
| ByteIO.ReadBytesEndsExactlyWhen | Remote Directory Synchronizer/src/util.c:96-118 | Without a failing call the loop ends exactly when all n bytes are to come; at the end of the data it turns for ever. |
| ByteIO.ReadEof | Remote Directory Synchronizer/src/util.c:24-46 | Delivers the next min(n, remaining) bytes, or -1 when a call failed. |
| ByteIO.WriteBytes | Remote Directory Synchronizer/src/util.c:120-142 | For every schedule of short writes: exactly the n bytes are written in order, or a call failed and a prefix was. |
| ByteIO.Scan | Remote Directory Synchronizer/src/util.c:48-94 | The loop of read_line and read_wc for every schedule: without a failing call it succeeds exactly when an end of line or word comes within the buffer's limit, with the bytes up to it; nothing behind it is consumed. |
| ByteIO.ScanEndsExactlyWhen | Remote Directory Synchronizer/src/util.c:48-94 | Without a failing call that loop ends exactly when the end of the line or word comes, the buffer runs full, or errno is not EINTR when the data ends: a read at the end of the data leaves errno as an earlier call set it, and is repeated for ever where that was EINTR. |
| ByteIO.ReadWord | Remote Directory Synchronizer/src/util.c:72-94 | The next word, ended by 0; the stream continues behind its separator. |
| ByteIO.ReadLine | Remote Directory Synchronizer/src/util.c:48-70 | The next line with its newline, ended by 0; the stream continues behind it. |
| ByteIO.FileCopy | Real-time Directory Synchronizer/src/util.c:27-64 | Fails with both files untouched exactly when one cannot be opened; otherwise, without a failing call, the target is exactly the source, for every schedule of short reads and writes; what an empty file yields depends on a variable that is never set; on success the copy is exact. |
| Wire.DecimalRoundTrip | Remote Directory Synchronizer/src/nfs_client.c:84-88 | Reading a printed size, -1 included, gives it back, and the digits contain no separator. |
| Wire.PushRoundTripExactlyWhen | Remote Directory Synchronizer/src/nfs_manager.c:102-140 | The server reads back path, size and exactly the payload from a printed PUSH if and only if the path has no white space and path and digits fit the 522-byte buffer. |
| Wire.ChunkHeadersFit | Remote Directory Synchronizer/src/nfs_manager.c:102-136 | With the limits of the config file, of LIST and of the chunk size, no header is ever cut. |
| Wire.OneMoreByteIsCut | Remote Directory Synchronizer/src/nfs_manager.c:102-136 | The buffer is exactly large enough: with one more byte of the file name a full chunk's header is cut. |
| Wire.SizeRoundTrip | Remote Directory Synchronizer/src/nfs_manager.c:53-59 | The big-endian size header decodes to the size reduced to an int32_t, which is the size itself exactly when it fits. |
| Wire.ListRoundTripExactlyWhen | Remote Directory Synchronizer/src/nfs_client.c:123-141 | The manager reads the names of a LIST reply back, and nothing more, exactly when each name has at most 254 bytes, no newline, and is not a dot. |
| Wire.TrailingNewlineIsAnEmptyName | Remote Directory Synchronizer/src/nfs_manager.c:242-278 | A file whose name ends in a newline is read back as its name without it and a second, empty name: that is where a pair without a name comes from. |
| Transfer.PulledWholeExactlyWhen | Remote Directory Synchronizer/src/nfs_client.c:170-186 | A file is pulled whole exactly when it is smaller than 2 GiB; a larger one is refused or cut by the conversion of its size. |
| Transfer.StepKeepsInv | Remote Directory Synchronizer/src/nfs_manager.c:98-170 | Every step of the workers and of the server keeps, for every path and with any number of transfers to it: what the file will be once the waiting connections are served is what was sent since the last PUSH -1; of that, the bytes that did not come from other workers are counted, and are a prefix of what was pulled while there are no others. |
| Transfer.FaithfulExactlyWhen | Remote Directory Synchronizer/src/nfs_manager.c:98-170 | Over every run with any number of workers and any overlap of their transfers, for a path that the host can write: once all its connections are served it is what the transfer of the latest PUSH -1 pulled if and only if no other worker has sent a byte for the path since that PUSH; until then it is a prefix of it; a path that nothing was sent for, or that cannot be written, is unchanged. |
| Transfer.TransferIsFaithful | Remote Directory Synchronizer/src/nfs_manager.c:98-170 | So with one transfer to the path at a time, whatever happens to other paths: a prefix of its source once PUSH -1 is served, and what was pulled once all is served, which is the source exactly below 2 GiB. |
| Transfer.WorkerOpens | Remote Directory Synchronizer/src/nfs_manager.c:98-170 | A worker left to itself opens exactly PUSH -1, the chunks of at most 4096 bytes and PUSH 0, in this order. |
| SharedTarget.SharedTargetMixes | Remote Directory Synchronizer/src/nfs_manager.c:98-170 | A run of two workers that bring one path at the same time and leave it with the bytes of both files, when nothing is in flight any more. |
| PushPull.Host.CommandPush | Remote Directory Synchronizer/src/nfs_client.c:226-275 | PUSH -1 creates or truncates a file that can be opened; PUSH n appends exactly the next n bytes of the connection, in pieces of 1024, to one that exists and can be opened, and leaves the rest unread; nothing else changes. |
| PushPull.Host.ExecutePush | Remote Directory Synchronizer/src/nfs_client.c:56-90 | Serving the bytes of a PUSH connection does to every path what the machine's connection stands for, and nothing to one that cannot be written. |
| PushPull.Host.CommandPull | Remote Directory Synchronizer/src/nfs_client.c:148-222 | The reply is the size header, a blank and exactly the file, or -1 and the error text when there is no file or its size does not survive the conversion. |
| PushPull.SendFile | Remote Directory Synchronizer/src/nfs_client.c:213-217 | The copy loop sends exactly the file. |
| PushPull.Host.CommandList | Remote Directory Synchronizer/src/nfs_client.c:99-144 | The reply lists the entries in order, without unused entries, `.` and `..`, and ends with a dot. |
| PushPull.ReadListing | Remote Directory Synchronizer/src/nfs_manager.c:242-279 | The producer's loop reads exactly the names up to the dot. |
| PushPull.PushFile | Remote Directory Synchronizer/src/nfs_manager.c:98-171 | The connections of a transfer, byte for byte: PUSH -1, the file in chunks of at most 4096, PUSH 0. |
| PushPull.PullAndPush | Remote Directory Synchronizer/src/nfs_manager.c:52-171 | Nothing is pushed when the reply is an error; otherwise the bytes the size header announces are. |
| PushPull.StreamsAreConns | Remote Directory Synchronizer/src/nfs_manager.c:98-171 | The bytes of a transfer's connections, read as the server reads them, are the connections that the machine's worker opens. |
| PushPull.StreamsDeliver | Remote Directory Synchronizer/src/nfs_manager.c:98-171 | Serving the connections of a transfer in order makes the target exactly the data, whatever it was before. |
| PushPull.WholeTransfer | Remote Directory Synchronizer/src/nfs_manager.c:48-171 | From end to end the target becomes what was pulled, and is the source file exactly below 2 GiB. |
| PushPull.NamesTransfer | Remote Directory Synchronizer/src/nfs_manager.c:48-171 | So for every directory and file name within the program's limits and without white space, for a file below 2 GiB. |
| Synchronizer.StepKeepsInv | Remote Directory Synchronizer/src/nfs_manager.c:22-183 | The pool, its workers' transfers and any number of hosts together: every step keeps, for a pair whose target no other pair has, that one worker at most holds it, that only its worker sends to its target, and that an obtained pair is still with its worker, has failed, or was sent whole. |
| Synchronizer.EverythingArrives | Remote Directory Synchronizer/src/nfs_manager.c:22-183 | From the producer to the targets, over every run: when all the workers have left, fewer pairs without a name were obtained than there are workers, and the host has served its connections, every placed pair that no cancel took, whose target no other pair has and whose transfer came about, has its target equal to what was pulled of its source, which is the source exactly below 2 GiB. |
| LinkedQueues.Queue.Enqueue | Real-time Directory Synchronizer/src/job_queue.c:77-86 | The value joins the end; head, tail, size and the chain of nodes agree again. |
| LinkedQueues.Queue.Dequeue | Real-time Directory Synchronizer/src/int_queue.c:52-71 | The oldest value leaves; on an empty queue the given empty value (0 for slots) comes back and nothing changes. |
| JobRemoval.DirExists | Real-time Directory Synchronizer/src/job_queue.c:148-160 | True exactly when some queued job is for the directory. |
| JobRemoval.DropLeading | Real-time Directory Synchronizer/src/job_queue.c:166-182 | The first loop drops exactly the jobs of the directory that the list begins with. |
| JobRemoval.Walk | Real-time Directory Synchronizer/src/job_queue.c:184-204 | The second loop with a predecessor that never advances: what the first node's successor, the size and the tail are in the end. |
| JobRemoval.RemoveDir | Real-time Directory Synchronizer/src/job_queue.c:162-205 | The chain, size and tail that removal leaves; the queue is well formed afterwards exactly when RemoveIsExact held before, and then it is the filtered queue. |
| JobRemoval.RemoveIsFilterExactlyWhen | Real-time Directory Synchronizer/src/job_queue.c:184-204 | Chain, size and tail come out right exactly when, behind the leading jobs of the directory, its other jobs directly follow the first kept job and some other job follows them. |
| JobRemoval.RemoveCanLoseJobs | Real-time Directory Synchronizer/src/job_queue.c:184-204 | Three jobs of which the last is removed: the second is lost as well, and the tail is NULL. |
| FileMonitor.Table.Lookup | Real-time Directory Synchronizer/src/file_monitor.c:134-161 | The first entry of the directory, or none. |
| FileMonitor.Table.LookupWatch | Real-time Directory Synchronizer/src/file_monitor.c:140-148 | The first entry with the watch, or none. |
| FileMonitor.Table.Working | Real-time Directory Synchronizer/src/file_monitor.c:100-121 | 1 or 0 for a directory of the table, -1 for another one. |
| FileMonitor.Table.Add | Real-time Directory Synchronizer/src/file_monitor.c:33-98 | An active directory is refused; an inactive one becomes active with its new watch and target and keeps its mark; a new one is appended. |
| FileMonitor.Table.Mark | Real-time Directory Synchronizer/src/file_monitor.c:163-182 | Only the mark of the directory's entry changes. |
| FileMonitor.Table.Deactivate | Real-time Directory Synchronizer/src/file_monitor.c:123-132 | The entry becomes inactive and keeps its watch and its mark. |
| WorkerSlots.Slots.constructor | Real-time Directory Synchronizer/src/worker_management.c:20-75 | All the slots 2 to limit + 1 are free, in order. |
| WorkerSlots.Slots.SetupWorker | Real-time Directory Synchronizer/src/worker_management.c:94-162 | With no worker available nothing happens; otherwise the first free slot (0 if there is none) gets the job and the pipe's lowest free number when pipe and fork succeed; it leaves the queue all the same when one fails, and a failed fork leaves the number of its closed pipe in the slot. |
| WorkerSlots.Slots.FreeWorker | Real-time Directory Synchronizer/src/worker_management.c:164-183 | The slot's pipe is closed, the slot joins the end of the free queue and its job is gone; nothing but the result -1 where the pipe cannot be closed. |
| FssManager.Manager.Turn | Real-time Directory Synchronizer/src/fss_manager.c:88-153 | One turn of the dispatch loop: the job goes back to the end of the queue while its directory is busy, and is set up otherwise. |
| FssManager.Manager.DispatchPass | Real-time Directory Synchronizer/src/fss_manager.c:80-158 | The dispatch loop, with its break, is Scheduler.Pass. |
| FssManager.Manager.FinishWorker | Real-time Directory Synchronizer/src/fss_manager.c:308-323 | A report makes the directory idle and its slot free. |
| FssManager.Manager.AddMonitoredFile | Real-time Directory Synchronizer/src/fss_manager.c:352-409 | Adds the directory and one full job, unless it is active already or cannot be watched. |
| FssManager.Manager.SyncFile | Real-time Directory Synchronizer/src/fss_manager.c:412-465 | Queues one console sync, and watches an inactive directory again, unless the directory is unknown, busy, queued or cannot be watched; -1 comes back in the last case only. |
| FssManager.Manager.CancelDir | Real-time Directory Synchronizer/src/fss_manager.c:234-255 | An active directory becomes inactive and its jobs leave the queue, where RemoveIsExact holds. |
| FssManager.Manager.ReadEvents | Real-time Directory Synchronizer/src/fss_manager.c:271-302 | Each event becomes a job of the directory that has its watch, in order. |
| FssManager.Manager.HandlePoll | Real-time Directory Synchronizer/src/fss_manager.c:185-324 | What poll finds is handled in the order console, inotify, workers, and is a run of the scheduler's steps; commands and events stay unread after a shutdown. |
| FssManager.Manager.Turnaround | Real-time Directory Synchronizer/src/fss_manager.c:76-325 | One turn of the endless loop is a run of the scheduler's steps, and it ends the manager exactly when it shuts down with no job and no worker left. |
| Scheduler.SlotConservation | Real-time Directory Synchronizer/src/worker_management.c:61-72 | Free slots, active workers and lost slots add up to the worker limit. |
| Scheduler.NextSlotIsConsoleExactlyWhen | Real-time Directory Synchronizer/src/worker_management.c:94-118 | With a worker available, the console's index 0 is handed out as a slot exactly when every idle slot was lost before; never when none was. |
| Scheduler.WorkingMeansBusy | Real-time Directory Synchronizer/src/file_monitor.c:100-121 | For a directory of the table is_working answers whether a slot works on it. |
| Scheduler.ReportsAreSoundExactlyWhen | Real-time Directory Synchronizer/src/fss_manager.c:308-323 | Every slot whose report poll lets the manager read has a worker exactly when no slot without one still holds the number of an open descriptor; poll never misses a slot with a worker. |
| Scheduler.SetUpIsSoundExactlyWhen | Real-time Directory Synchronizer/src/worker_management.c:94-162 | A setup keeps that exactly when it is not a start whose pipe gets a number that a failed fork left in a slot. |
| Scheduler.DispatchStep | Real-time Directory Synchronizer/src/fss_manager.c:88-153 | A turn that requeues its job, or that has a slot to give, keeps all the invariants. |
| Dispatch.SoundWithoutFailure | Real-time Directory Synchronizer/src/worker_management.c:94-118 | When no setup fails, now or before, every turn of a pass has a worker slot and a pipe whose number no slot holds already. |
| DispatchOrder.OneFailureCanGiveAwayTheConsole | Real-time Directory Synchronizer/src/worker_management.c:100-118 | One slot and a failed pipe: the next job gets the console's index. |
| Dispatch.PassKeepsInv | Real-time Directory Synchronizer/src/fss_manager.c:80-158 | A pass in which every turn has a slot and a pipe number of its own keeps slot conservation, exclusion, the console-sync bound and the soundness of reports. |
| Dispatch.PassIsSoundExactlyWhen | Real-time Directory Synchronizer/src/worker_management.c:94-162 | With slots for all, poll reports only slots with a worker after a pass exactly when no worker it started got a pipe with a number that a failed fork had left behind. |
| Dispatch.FailedForkThenStart | Real-time Directory Synchronizer/src/worker_management.c:108-117 | A start directly behind a failed fork always gets that number: poll then reports the lost slot together with the new one. |
| DispatchOrder.FailedForkCanMixReports | Real-time Directory Synchronizer/src/worker_management.c:108-117 | Two workers, two directories with one job each, a failed fork and a start: poll reports both slots by one descriptor, and slot 2 has no worker. |
| Dispatch.NoStall | Real-time Directory Synchronizer/src/fss_manager.c:79-158 | After a pass no worker is available or every queued job's directory is busy, and a nonempty queue means an active worker. |
| Dispatch.PassShape | Real-time Directory Synchronizer/src/fss_manager.c:80-158 | A pass without a failed setup visits the first k jobs, where k follows from the state before: it stops where the jobs it started use up the available workers; the first job of each idle directory is started, at most one per directory, the other visited jobs go behind the unvisited ones in order, and started and queued jobs together are the old queue. |
| DispatchOrder.PassKeepsOrder | Real-time Directory Synchronizer/src/fss_manager.c:80-158 | Under the condition below a pass takes what it starts of a directory, at most one job, from the front of its jobs, and keeps the order of the others. |
| DispatchOrder.PassKeepsOrderExactlyWhen | Real-time Directory Synchronizer/src/fss_manager.c:85-106 | Where each job behind a pass without a failed setup (there may have been some before) stood before it, and that a directory's jobs, equal ones told apart, are in order exactly under a condition on the state before: where the pass stops for lack of workers, none of them is left unvisited, or at most one is visited (none, if the directory is busy). |
| DispatchOrder.EnoughWorkersKeepOrder | Real-time Directory Synchronizer/src/fss_manager.c:80-158 | With more workers than directories a pass visits every job, so the condition holds for every directory. |
| DispatchOrder.TwoWorkersTwoDirsCanReorder | Real-time Directory Synchronizer/src/fss_manager.c:85-106 | With as many workers as directories a pass can let a directory's third job overtake its second. |
| DispatchOrder.ActiveAtMostDirs | Real-time Directory Synchronizer/src/fss_manager.c:97-153 | There are never more workers than directories in the table. |
| SchedulerRuns.CompleteKeepsInv | Real-time Directory Synchronizer/src/fss_manager.c:308-323 | Poll reports a slot with a worker; reading the report closes its pipe and no other slot's, and keeps all the invariants. |
| SchedulerRuns.AddKeepsInv | Real-time Directory Synchronizer/src/fss_manager.c:352-409 | `add` keeps all the invariants and never shrinks the table. |
| SchedulerRuns.SyncKeepsInv | Real-time Directory Synchronizer/src/fss_manager.c:412-465 | `sync` keeps all the invariants, and so at most one console sync per directory is outstanding. |
| SchedulerRuns.ReadKeepsInv | Real-time Directory Synchronizer/src/fss_manager.c:277-302 | An event keeps all the invariants. |
| SchedulerRuns.CancelKeepsInv | Real-time Directory Synchronizer/src/fss_manager.c:234-255 | `cancel`, where removal does what it is meant to, keeps all the invariants, also for a directory with a running worker. |
| SchedulerRuns.RunKeepsInv | Real-time Directory Synchronizer/src/fss_manager.c:74-326 | Over every run of passes, reports, commands and events whose setups are sound, failed pipes and forks included, all the invariants hold. |
| SchedulerRuns.RunIsSoundExactlyWhen | Real-time Directory Synchronizer/src/worker_management.c:94-162 | Over a run whatever its setups yield, every report that the manager can read is one of a worker exactly when no pass starts a worker whose pipe gets a number that a failed fork left behind. |
| SchedulerRuns.EveryReachableState | Real-time Directory Synchronizer/src/fss_manager.c:97-153 | In every state reached by such a run: at most one slot per directory, a mark exactly where a slot works, is_working 0 or 1 for every queued job, slot conservation, poll reports exactly the slots with a worker, at most one console sync per directory. |
| SchedulerRuns.DoneOrWaiting | Real-time Directory Synchronizer/src/fss_manager.c:160-174 | After a shutdown the loop ends exactly when no work is left, and until then poll has a worker to wait for. |
| SchedulerRuns.ShutdownIsBounded | Real-time Directory Synchronizer/src/fss_manager.c:160-174 | After a shutdown no more reports are read than 2 * jobs + workers, for any number of rounds. |
| SchedulerRuns.FifoPerDirectory | Real-time Directory Synchronizer/src/fss_manager.c:79-158 | Over every run without a failed setup, from any state that keeps the invariants, whose passes meet that condition for a directory, the jobs that arrive for it are those started followed by those waiting, in this order. |
| SchedulerRuns.EnoughWorkersAreOrderly | Real-time Directory Synchronizer/src/fss_manager.c:79-158 | Every run without a failed setup and with more workers than directories is such a one. |
| Mirror.MoveKeepsInv | Real-time Directory Synchronizer/src/worker.c:59-221 | Every edit, event, job, piece of a copy and report keeps for every file: the last word on it that is still to be carried out agrees with the source, or the target has it, or a full copy is to come. |
| Mirror.ConvergesExactlyWhen | Real-time Directory Synchronizer/src/worker.c:59-221 | Over every interleaving since `add`, with copies that can be caught half way, and with a worker left over from before a cancel, once nothing is pending the target is the source, exactly when every name that only the target had, or got from that worker, was edited since. |
| Worker.FirstSyncIsRun | Real-time Directory Synchronizer/src/worker.c:60-153 | From every state behind `add`, with nobody editing, the full job runs to a quiet state in which the target holds the copied files. |
| Convergence.RunMoves | Real-time Directory Synchronizer/src/fss_manager.c:74-326 | Every run of the whole manager without a failed setup, with other directories and their events, whose passes keep the order of the directory's jobs, is a run of Mirror for the directory. |
| Convergence.ConvergesExactlyWhen | Real-time Directory Synchronizer/src/fss_manager.c:74-326 | The same convergence for the whole manager over such runs, from an `add` or a `sync` on: also of a directory that was cancelled and whose old worker still runs, and from whatever state earlier failed setups and reordered jobs have left behind; the directory is not cancelled again. |
| Convergence.SyncAfterAnyRun | Real-time Directory Synchronizer/src/fss_manager.c:412-465 | After any run, failed setups and reordering passes included, a directory with its own watch and with no worker, job or unread event can start that way by `sync`. |
| Convergence.ConvergesWithEnoughWorkers | Real-time Directory Synchronizer/src/fss_manager.c:74-326 | With more workers than directories and no worker left over: exactly when every name that only the target had was edited. |
| Convergence.EnoughWorkersAreOrderly | Real-time Directory Synchronizer/src/fss_manager.c:79-158 | With more workers than directories every such run keeps the order. |
| Watches.ReadableExactlyWhen | Real-time Directory Synchronizer/src/fss_manager.c:277-302 | Over every run, an event that is unread can still be read later, its entry found, exactly when the directory of its watch was not watched anew in between; otherwise the code follows a NULL pointer. |
| Watches.RewatchNeedsCancel | Real-time Directory Synchronizer/src/fss_manager.c:234-255 | Without a cancel of the directory that never happens. |
| Watches.CancelAndAddLosesTheEntry | Real-time Directory Synchronizer/src/fss_manager.c:277-302 | `add`, `cancel` and `add` again, with an event of the first watch unread: its entry is not found. |
| Watches.EventArrivesExactlyWhen | Real-time Directory Synchronizer/src/file_monitor.c:140-148 | An event of a directory's watch becomes a job of that directory exactly when no earlier entry has the same watch. |
| Watches.ShadowedGetsNoEvents | Real-time Directory Synchronizer/src/fss_manager.c:277-302 | Over every run in which an earlier entry has a directory's watch, all the jobs that arrive for it are full ones. |
| Watches.TwoNamesShareAWatch | Real-time Directory Synchronizer/src/fss_manager.c:352-409 | Two names of one directory, for which inotify gives one number, come to that. |
| Watches.SharedWatchStaysBehind | Real-time Directory Synchronizer/src/fss_manager.c:277-302 | And then an edit leaves the second name's target different from the source with nothing pending. |
| Worker.Target.CopyAll | Real-time Directory Synchronizer/src/worker.c:80-151 | FULL copies every listed name that the source has, touches no other name, and counts as processed what file_copy calls a success, which for an empty file its unset variable decides. |
| Worker.Target.Execute | Real-time Directory Synchronizer/src/worker.c:59-238 | What each operation leaves in the target, and which status it reports, given what file_copy's unset variable held at each copy. |
| Worker.EmptyFilesDecideTheReport | Real-time Directory Synchronizer/src/worker.c:117-150 | FULL of a directory at rest counts every copy as a success exactly when that variable was not negative at any empty file. |
| Worker.FullMirrorsExactlyWhen | Real-time Directory Synchronizer/src/worker.c:60-153 | FULL of a directory at rest makes the target the source exactly when the target had no other names. |
| Worker.FullIsRun | Real-time Directory Synchronizer/src/worker.c:60-153 | With nobody editing, the FULL loop is one run of Mirror. |

## Left out

- Sockets, named pipes, `poll`, `fork`, `exec`, signals and inotify are steps or scripts; so is what `pipe`, `fork` and `inotify_add_watch` yield.
- Logging, time stamps, console text, option parsing and the config file's syntax.
- Memory: `malloc` failures, the abrupt shutdown they lead to, buffer overruns, `free`. Names are values.
- A pool with a ring of size 0, where the first place waits for ever, and a worker limit of 0; the programs accept both.
- SyncBuffer.Buffer.CancelDir: asks for a ring that is not of size 0, because the code divides by the size, and for a report buffer with room for the terminator (`SyncBuffer.TerminatorFitsExactlyWhen`).
- The child's own failures between fork and exec (-4, -5), which return into the manager's loop in the child.
- What the manager does once it has read a report through a slot without a worker: it uses a task that was never stored. Runs end before that (`SchedulerRuns.RunIsSoundExactlyWhen`).
- A connection that fails inside the chunk loop: the code closes the source and goes on reading it. A failure before PUSH -1 or at the final PUSH is part of `Transfer`.
- Liveness of a client that is source and target of one huge file.
- An inotify queue that overflows, renames, subdirectories, and a target that somebody else writes to.
- What the manager does once it has followed a NULL pointer for an event without an entry. Runs end before that (`Watches.ReadableExactlyWhen`).
- Two directories with one watch in `Convergence`: there a directory's watch is its own, since the later of two does not converge (`Watches.SharedWatchStaysBehind`); and that a cancel of one of them takes the watch from the other.
- A directory that cannot be opened, a missing target directory or a full disk while a worker copies: `Mirror` and `Worker` assume that directories and existing files can be opened, read and written.
- The worker's report text and error lines, `status`, and the fields that only `status` prints.
- `FileMonitor.Table` keeps its entries in a sequence, not in linked nodes: nothing is ever removed from that list.
- `WorkerSlots.Slots` keeps the jobs and the descriptors of the slots in maps from slots, not in parallel arrays.
- SchedulerRuns.CancelKeepsInv: is about the filter that removal is meant to be; where removal goes wrong (`JobRemoval.RemoveIsExact` fails) the list is damaged and no run goes on.
- WorkerPool.ShutdownIsBounded: counts steps of the pool; that the transfer of one file ends is `PushPull.PushFile`'s termination, not part of the machine.
- Transfer.FaithfulExactlyWhen: is about one target host, since hosts do not share files or connections (`Synchronizer` has any number of them); sources do not change while they are read; which paths cannot be written does not change.
- ByteIO.WriteBytes: gives success or failure; the real-time program's version returns the count without the last write, which its callers only compare with 0.
- ByteIO.ReadBytes: asks that the bytes are to come, because the loop does not end otherwise.
- PushPull.Host.CommandPush: asks that the payload arrives and no read fails, because the code ignores what read_bytes returns.
- PushPull.Host.CommandPull: likewise ignores failing writes, so none may fail.
- PushPull.PushFile: every connection comes about; the failures that the machine has are steps of `Transfer`.
- Convergence.ConvergesExactlyWhen: from the `add` or `sync` on it covers runs without a failed setup whose passes keep the order of the directory's jobs, because the other ones can drop a job or carry out jobs in the wrong order; a later `sync` starts anew (`Convergence.SyncAfterAnyRun`). Jobs left in the queue by a damaged removal before the `add` are excluded by `Convergence.Before`.
- Synchronizer.EverythingArrives: a pair whose transfer fails (the source or the first connection to the target) is not tried again by the program, and is not said to arrive.
