# A verified model of the StashCLI server

The server accepts connections, gives each to one of several client threads, and lets worker
threads do the file operations.  Bounded queues, a session table, a per-file lock table, a
one-slot response per session and a quota ledger in SQLite tie them together.  This project
models those parts in Dafny and proves what they guarantee, for any number of client threads,
workers, slots and cells, and over every interleaving and every run.

## How it is organised

| file | what it holds |
|---|---|
| `Prelude.dfy`, `Probing.dfy` | shared vocabulary; linear probing without tombstones, and exactly when a key stays reachable |
| `FileLocks.dfy`, `LockProtocol.dfy`, `DiskPaths.dfy` | the lock table as an object and on values; two-phase acquire and release as interleaved steps; lock keys against the files they stand for |
| `Sessions.dfy` | the session table on values (`SessionTable`) and as objects updated in place (`SessionManagement`) |
| `BoundedQueue.dfy`, `QueueMonitor.dfy` | the ring shared by both queues; all interleavings of its callers with condition variables as in POSIX.1-2017 |
| `Responses.dfy` | the response slot: payload ownership and the waiting client |
| `FileService.dfy`, `FileServiceResults.dfy` | the workers' disk and metadata steps under the locks; serializability, disk/metadata agreement, progress |
| `FileServiceLimits.dfy`, `FailingRuns.dfy`, `FileServiceExact.dfy` | exactly when those results hold: the conditions, the runs that break them, and the equivalences |
| `Database.dfy`, `QuotaRace.dfy` | the ledger transactions; how soft the quota is |
| `ServerQuota.dfy`, `StoredBytes.dfy` | the ledger inside the whole server: the quota bound there, and what it counts against what the disk holds |
| `Protocol.dfy`, `ProtocolFlow.dfy`, `ProtocolBuffers.dfy`, `ProtocolResults.dfy`, `ProtocolProgress.dfy`, `ProtocolHistory.dfy`, `ProtocolLimits.dfy` | the whole server: clients, queue, workers, sessions, locks and disk in one machine; what happens without its hypothesis |
| `ProtocolRequests.dfy`, `ProtocolConversation.dfy` | from what clients send to what requests ask and downloads return; the order of a client's steps; shutdown |
| `LostRequests.dfy`, `ProtocolExact.dfy` | a run from start-up that loses a request; exactly which servers never do |
| `Framing.dfy`, `ListReply.dfy` | upload assembly from TCP chunks; the LIST reply |
| `UserStore.dfy`, `UserTable.dfy` | the older incremental store, compared with the ledger |

A machine is a datatype state with `Enabled` and `Apply`; a run is a sequence of actions with
`Valid` and `Final`.  Every section under one mutex is one step.  Code that updates an object in
place is a class whose methods are proved against the function the machine uses, so the two
cannot drift apart.

## What the proofs say, in short

- Refcounts and slot ownership in the lock table are right in every run.  Mutual exclusion per
  path holds if and only if the paths in use have distinct home slots: slots are freed without
  tombstones, and "u/aB" and "u/b!" collide in the real table.
- Operations on the files serialize if and only if no two keys share a home slot or reach one file,
  no data is lost at `fclose`, and writes either do not fail or fail under a single worker that
  always removes the half-written file (`FileServiceExact.AlwaysSerialIff`).  One slot or one worker
  excuses shared homes and files.  A failed upload counts there as a removal, because it destroys
  the old file even when nobody else is around.
- Keys name files only up to detours: "x" and "/x" take two locks and reach one file.  The disk of
  the model goes by the file, locks and metadata by the key.  Every plain name but the longest has
  such a second name (`DiskPaths.SecondNameIff`); plain names alone never reach one file twice.
- Two things are wrong with a failing write (`src/threads/worker_thread.c:132-147`).  The old
  file was truncated at `fopen` and is lost, whatever the order of unlock and removal.  And the
  removal comes after the unlock: another worker may serve the truncated file, or have its own
  acknowledged upload removed.  Failed uploads change nothing if and only if they do not happen
  (`FileServiceExact.AlwaysIntactIff`).
- Disk and metadata agree on every free file if and only if no two keys reach one file, homes are
  apart, and neither writes nor metadata transactions fail (`FileServiceExact.AlwaysAgreedIff`).
- In runs that keep homes apart and lock no file that is about to be removed, the whole server is
  a linearizable file store: each answer about a file is one entry of a serial log, between the
  request and its answer.  Each request is the command, or the path and the very bytes, that its
  client sent last before it pushed, so a download returns bytes that some client sent
  (`ProtocolRequests.DownloadReturnsBytesSent`).
- If no session's end frees a slot on another session's way, every accepted request is answered
  exactly once, on its own session, before that session's next request, also across shutdown.
  Every buffer is freed exactly once.  Workers can always go on without any call having to fail,
  and a queued request then gets a proper answer.  Live ids less than 256 apart are enough for that.
- Over all runs a server never drops an answer if and only if it has one client thread, one session
  slot, or no worker (`ProtocolExact.NeverDropsIff`).  So the 256 slots with several client threads
  are not enough: a run from start-up drops an answer and leaves its client waiting for ever
  (`LostRequests.RequestIsLost`).
- With N client threads a user's bytes stay within N limits, in the whole server too, and that bound
  is reached.  Without failing writes and transactions, what the quota counts is what the disk holds.
- After a shutdown request the workers can answer everything accepted and leave.
- An upload does not depend on how TCP cut it, unless the first byte behind the command line in
  the first chunk is NUL.

Where code and documentation disagree, the model follows the code:

- `docs/phase2_report.md:464` and `docs/REPORT.md:112` say operations on one file serialize.  They
  do under the conditions above only (`LockProtocol.ExclusiveIffDistinctHomes`,
  `FileServiceExact.AlwaysSerialIff`).
- `docs/REPORT.md:58` says the quota is enforced with atomic transactions.  The check and the
  commit are separate steps, as `README.md:308` admits (`QuotaRace.OvershootReached`).
- The comment on `recv_full` speaks of an error return; after a failure it returns the bytes
  received so far, so the "Network receive error" branch of an upload is never taken
  (`Framing.RecvFull`, `Framing.ReceiveUpload`).

## Model

| member | source | states |
|---|---|---|
| Probing.SearchFindsIffReachable | src/sync/file_locks.c:102-125 | a search ends at a key's slot if and only if no free slot lies between its home and it |
| Probing.AbsentKeyStopsAtFree | src/session/session_manager.c:190-218 | a search for an absent key ends where a search for a free slot does |
| Probing.InsertKeepsReachable | src/sync/file_locks.c:111-120 | filling a slot hides nobody |
| Probing.InsertedIsReachable | src/session/session_manager.c:108-112 | the slot a probe settles on is reachable once filled |
| Probing.DeleteKeepsReachableIff | src/sync/file_locks.c:164-168 | freeing a slot keeps another key reachable if and only if the slot is not on its way |
| FileLocks.LockKeyInjective | src/sync/file_locks.c:89-91 | two user/file pairs share a key only if they are equal, when user names hold no slash |
| FileLocks.SlashInUserNameSharesKey | src/sync/file_locks.c:89-91 | with a slash in a user name two different user/file pairs share a key |
| FileLocks.HashFilepath | src/sync/file_locks.c:10-21 | the shift-and-add loop with unsigned wrap-around and signed characters gives the home slot used by all proofs |
| FileLocks.HashIsPolynomial | src/sync/file_locks.c:12-20 | the hash is 5381 and the characters, as digits to the base 33, modulo 2^32 |
| FileLocks.FileLockManager.Init | src/sync/file_locks.c:24-63 | a non-positive capacity is refused and changes nothing; if any of the capacity + 1 mutexes cannot be made, those made so far are destroyed and the result is -1; otherwise every slot is free |
| FileLocks.FileLockManager.Lookup | src/sync/file_locks.c:93-127 | the probing loop claims the slot the specification names, or none when the table is full, and changes no other slot |
| FileLocks.FileLockManager.Drop | src/sync/file_locks.c:157-176 | one reference is given back, and the slot is freed at zero |
| LockProtocol.StepKeepsInv | src/sync/file_locks.c:93-177 | each step keeps refcount = threads between lookup and release, in_use iff positive, and key = the path each user asked for |
| LockProtocol.RunsKeepInv | src/sync/file_locks.c:84-177 | the same over all runs, whatever the paths hash to |
| LockProtocol.SlotNeverFreedUnderUser | src/sync/file_locks.c:160-168 | a slot a thread waits on or holds is never freed or re-keyed, and never has two holders |
| LockProtocol.SeparatedRunsExclude | src/sync/file_locks.c:84-142 | if paths live at the same time have distinct homes, no two threads hold one path |
| LockProtocol.CollisionBreaksExclusion | src/sync/file_locks.c:104-120 | a collide, release, re-acquire trace ends with two holders of one path |
| LockProtocol.ExclusiveIffDistinctHomes | src/sync/file_locks.c:84-177 | runs over a set of paths always exclude if and only if the paths have pairwise distinct homes |
| LockProtocol.RealCollision | src/sync/file_locks.c:10-21 | two ordinary file names of one user collide among 1024 slots |
| LockProtocol.LookupSucceeds | src/sync/file_locks.c:130-134 | with at least as many slots as threads the table never reports full |
| DiskPaths.PlainKeysMatchFiles | src/threads/worker_thread.c:88-89 | for plain names two lock keys are equal if and only if they stand for one file on disk |
| DiskPaths.OneLockIffPlain | src/sync/file_locks.c:89-91 | another name for the file behind a plain name shares its lock if and only if it is plain itself |
| DiskPaths.PlainKeysReachDifferentFiles | src/threads/worker_thread.c:88-89 | keys of plain names never reach one file twice |
| DiskPaths.SecondNameIff | src/threads/client_thread.c:200 | a plain file has a second name that the command parser takes if and only if its name is shorter than 255 bytes |
| DiskPaths.DetourReachesFile | src/threads/worker_thread.c:88-89 | a name of at most 255 bytes with a detour over the parent directory reaches a plain file from any user's directory |
| DiskPaths.DotLeadsNowhere | src/threads/worker_thread.c:88-89 | an empty component or "." anywhere in a path changes nothing |
| DiskPaths.UpUndoesDown | src/threads/worker_thread.c:88-89 | a component and ".." behind it, anywhere in a path, change nothing |
| DiskPaths.UpLeadsOut | src/threads/worker_thread.c:88-89 | with nothing to undo ".." leads out of the working directory |
| DiskPaths.PlainPathIsItself | src/threads/worker_thread.c:88-89 | a path without such components is what it says |
| SessionTable.RunKeepsCoherent | src/session/session_manager.c:156-165 | over any operations ids stay unique, the active count is the number of occupied slots, and the peak is at least that |
| SessionTable.CreateCodes | src/session/session_manager.c:86-177 | a creation yields the next id if and only if descriptor, memory, primitives and a slot are there; every attempt behind the allocation consumes an id |
| SessionTable.RunCounters | src/session/session_manager.c:156-165 | the total counts the successful creations, and the peak is the largest number of sessions there ever were |
| SessionTable.FullIffNoFreeSlot | src/session/session_manager.c:104-121 | creation reports full if and only if every slot is taken |
| SessionTable.FoundIffFindable | src/session/session_manager.c:186-218 | a stored session is found if and only if every slot from its home to its own is occupied |
| SessionTable.CreateKeepsFindable | src/session/session_manager.c:104-157 | a new session is findable and hides no other |
| SessionTable.DestroyKeepsFindableIff | src/session/session_manager.c:306-317 | destroying one session keeps another findable if and only if the freed slot is not on its probe path |
| SessionTable.DestroyKeepsAllFindableIff | src/session/session_manager.c:261-320 | all others stay findable if and only if the freed slot lies on nobody's way |
| SessionTable.AnswersAsMapIff | src/session/session_manager.c:179-222 | lookups succeed for exactly the stored ids if and only if every stored session is findable |
| SessionTable.CloseIdsDiffer | src/session/session_manager.c:10-13 | ids fewer than 256 apart have different home slots |
| SessionTable.StepRefinesMap | src/session/session_manager.c:86-320 | one operation with recent live ids answers and acts as on a map, and leaves every session at home |
| SessionTable.ClearStepRefinesMap | src/session/session_manager.c:86-320 | one operation that frees no slot on another session's way answers and acts as on a map, wherever sessions are stored |
| SessionTable.ClearRunRefinesMap | src/session/session_manager.c:86-320 | the same over any sequence of operations, whatever the age of sessions |
| SessionTable.HomeIsClear | src/session/session_manager.c:10-13 | sessions in their home slots are all findable, and ending any of them cuts nobody off |
| SessionTable.RunRefinesMap | src/session/session_manager.c:86-320 | over any sequence with recent live ids at each creation the table is a map from ids to sessions |
| SessionTable.LongLivedSessionHidesAnother | src/session/session_manager.c:231-317 | without recency a run leaves a stored, active session that neither get nor destroy can find |
| SessionManagement.SessionManager.Init | src/session/session_manager.c:17-42 | the slots are cleared; if the mutex can be made the counters start at zero with first id 1, otherwise they stay and the result is -1 |
| SessionManagement.SessionManager.FreeSlot | src/session/session_manager.c:104-121 | the probing loop ends at the slot the specification names, or reports a full table |
| SessionManagement.SessionManager.Create | src/session/session_manager.c:86-177 | creation does what the value-level operation does, for every outcome of allocation and initialisation |
| SessionManagement.SessionManager.FindSlot | src/session/session_manager.c:186-218 | the search loop ends where the specification says |
| SessionManagement.SessionManager.Get | src/session/session_manager.c:179-222 | only active sessions are handed out |
| SessionManagement.SessionManager.MarkInactive | src/session/session_manager.c:224-259 | the object found is marked in place and nothing else changes |
| SessionManagement.SessionManager.Destroy | src/session/session_manager.c:261-320 | the session found leaves the table, inactive and with its socket closed, and the count drops; the other objects keep socket and flag |
| SessionManagement.SessionManager.DestroyAll | src/session/session_manager.c:44-84 | every session is released and the counters stay |
| BoundedQueue.PushAppends | src/queue/task_queue.c:42-55 | a push is accepted iff there is room and no shutdown, refused iff shutdown, and goes behind everything queued |
| BoundedQueue.PopTakesOldest | src/queue/task_queue.c:62-75 | a pop takes the oldest element, and reports shutdown only when empty |
| BoundedQueue.Queue.Init | src/queue/client_queue.c:6-37 | a non-positive capacity, missing memory or a failing mutex or condition variable gives -1 and no ring; otherwise the queue is empty and open |
| BoundedQueue.Queue.Push | src/queue/client_queue.c:56-81 | one section of a push on the ring array, tied to the specification |
| BoundedQueue.Queue.Pop | src/queue/client_queue.c:83-107 | one section of a pop on the ring array |
| BoundedQueue.Queue.SignalShutdown | src/queue/client_queue.c:109-118 | only the flag changes |
| QueueMonitor.StepKeepsInv | src/queue/task_queue.c:38-87 | every section, signal, broadcast and spurious wakeup keeps enough threads awake for the elements and the free cells |
| QueueMonitor.Fifo | src/queue/task_queue.c:50-52 | in every reachable state popped followed by queued equals accepted, in order |
| QueueMonitor.NoLostWakeup | src/queue/task_queue.c:43-53 | a consumer still waits only if woken consumers cover the elements, dually for producers, and nobody waits after shutdown |
| QueueMonitor.NeverAllAsleep | src/queue/client_queue.c:61-79 | a producer and a consumer never wait with nobody woken |
| QueueMonitor.NothingAcceptedAfterShutdown | src/queue/task_queue.c:45-49 | after shutdown the accepted sequence never grows |
| QueueMonitor.DrainedWhenConsumerLeaves | src/queue/task_queue.c:63-69 | when a consumer has left, everything accepted was popped |
| QueueMonitor.SpuriousWakeupChecksAgain | src/queue/task_queue.c:43-44 | a waiter may wake at any time; with its condition still false it goes back to sleep and nothing has changed, otherwise its section goes through |
| Responses.Response.Set | src/session/response_queue.c:45-66 | status, data and size are the arguments, the message its first 511 characters, and the response is ready; an old pointer is not freed |
| Responses.Response.Reset | src/threads/client_thread.c:281-292 | the response is blank again and a held payload goes to free |
| Responses.Response.Destroy | src/session/response_queue.c:28-43 | a held payload goes to free |
| Responses.PayloadsAreConserved | src/session/response_queue.c:28-66 | every payload handed in is freed once, overwritten once, or still held |
| Responses.NothingLostIff | src/threads/client_thread.c:281-292 | nothing is lost if and only if each payload is cleared before the next delivery |
| Responses.LifetimeFreesAll | src/session/response_queue.c:28-66 | under that discipline every payload is freed exactly as often as it was handed in, by the end of the session |
| Responses.ReadyIff | src/session/response_queue.c:62 | the response is ready if and only if a delivery came after the last reset |
| Responses.LastDeliveryIsRead | src/threads/client_thread.c:304-330 | whatever came before, the client reads status, message, data and size of the last delivery |
| Responses.NeverSleepsOnAnAnswer | src/session/response_queue.c:68-81 | the client never sleeps while the response is ready, over all interleavings with deliveries and resets |
| Responses.DeliveryEndsTheWait | src/session/response_queue.c:62-81 | after a delivery the client leaves its wait with its next section |
| Responses.WaitEndsWithDelivery | src/session/response_queue.c:68-81 | the client leaves its wait only after a delivery behind the last reset |
| FileService.StepKeepsWired | src/threads/worker_thread.c:63-362 | every worker's progress matches its phase on the lock of its own file, whatever fails |
| FileService.AloneInside | src/threads/worker_thread.c:78-90 | with live keys in distinct homes and on distinct files, a lock is granted only when no other worker is inside on that file |
| FileService.OwnViewIsKept | src/threads/worker_thread.c:89-133 | each write, read, unlink or commit keeps the worker's file as its job says, relative to the serial state |
| FileService.StepKeepsSerialized | src/threads/worker_thread.c:63-362 | one step of any worker keeps the serialization invariant, failing writes included, unless it loses data or locks a file that is about to be removed |
| FileServiceResults.SerialInLockOrder | src/threads/worker_thread.c:77-362 | if live keys have distinct homes and files, nothing is lost silently and no file about to be removed is locked, a run is a serial run in the order locks were given up, in which a failed write removes the file; and a file nobody has business with is what it left |
| FileServiceResults.ReplayIsLastWrite | src/threads/worker_thread.c:124-153 | the serial contents of a path are those of the last acknowledged upload, or none after a delete or a failed write |
| FileServiceResults.FetchIsLastUpload | src/threads/worker_thread.c:186-293 | in any serial history a fetched file is the last stored one |
| FileServiceResults.DownloadReturnsLastUpload | src/threads/worker_thread.c:186-293 | in such a run a successful download returns exactly the bytes of the last successful upload, with no delete or failed write after it |
| FailingRuns.PartialFileIsServed | src/threads/worker_thread.c:132-147 | a run where a failing upload gives up its lock and another worker serves the truncated file before it is removed |
| FailingRuns.LateSweepErasesUpload | src/threads/worker_thread.c:136-139 | a run where the late removal takes another worker's acknowledged upload |
| FailingRuns.UnsweptFileIsServed | src/threads/worker_thread.c:139-143 | a run of one worker that could not remove the half-written file and then serves it |
| FailingRuns.OldFileIsLost | src/threads/worker_thread.c:90-139 | a run of one worker whose failed upload takes the old file with it |
| FailingRuns.LossIsNotSerial | src/threads/worker_thread.c:126-130 | a run of one worker that acknowledges an upload although its data was lost at fclose |
| FailingRuns.CollisionIsNotSerial | src/sync/file_locks.c:104-168 | for any two paths with one home slot, the first without a file, a run where a download serves another worker's unfinished upload |
| FailingRuns.CollisionLeavesRow | src/sync/file_locks.c:104-168 | for any two paths with one home slot, the first without a file, a run that ends with a row and no file for the second |
| FailingRuns.AliasIsNotSerial | src/threads/worker_thread.c:88-90 | for any two keys that reach one file, not there yet, a run where a download by one name serves the unfinished upload by the other |
| FileServiceExact.AlwaysSerialIff | src/threads/worker_thread.c:63-362 | for any slots, workers, keys and failing calls: all runs serialize if and only if no two keys share a home or a file (or there is one slot or one worker), nothing is lost at fclose, and writes do not fail or fail under one worker that always removes the file |
| FileServiceExact.AlwaysIntactIff | src/threads/worker_thread.c:132-147 | all runs serialize and failed uploads leave the old file alone if and only if keys are apart in the same sense and no write or fclose fails |
| FileServiceResults.StepKeepsAgreed | src/threads/worker_thread.c:124-156 | on keys that reach different files, a step without write and database fault keeps disk and metadata in step wherever nobody is inside |
| FileServiceResults.RunsStayAgreed | src/threads/worker_thread.c:124-156 | the same over runs with homes apart |
| FileServiceExact.AlwaysAgreedIff | src/threads/worker_thread.c:124-336 | the file of a key exists iff the key's row does, with equal sizes, whenever nobody is inside, in all runs if and only if no two keys reach one file, homes are apart, and neither writes, fclose nor metadata transactions fail |
| FileServiceResults.StepDescends | src/threads/worker_thread.c:63-455 | each step of a worker brings its own task closer to the end |
| FileServiceResults.SomeWorkerCanMove | src/sync/file_locks.c:136-137 | while a worker is busy some busy worker can take a step for which no call has to fail, except a read of a file that vanished or shrank: the file locks cannot deadlock, whatever the paths hash to |
| FileServiceResults.SomeWorkerMovesCalmly | src/threads/worker_thread.c:63-362 | in a serialized state some busy worker can take a step with no failure at all that keeps the state serialized |
| FileServiceResults.StepKeepsGoingWell | src/threads/worker_thread.c:78-86 | without failing calls, and with its home slot to be had, no step turns a task into a failed one |
| FileServiceResults.AnyCallMayFail | src/threads/worker_thread.c:65-396 | each failing call is possible exactly at its place in the task, changes neither disk nor metadata, and decides the answer: a failed write removes the file, a failed metadata call is only logged |
| Ledger.Database.AddOrUpdateFile | src/auth/database.c:250-368 | for every pattern of failing SQL calls the tables and return code are the specified ones, and a non-zero code leaves the tables unchanged |
| Ledger.Database.Remove | src/auth/database.c:370-491 | the same for removal, with -3 for a missing file |
| Ledger.Database.Create | src/auth/database.c:102-143 | 0 if and only if the name is free and no call fails, and then one row is added with that name and hash, nothing used and the default limit; -2 if and only if the insert is prepared and the name is taken; non-zero changes nothing |
| Ledger.CreateCodes | src/auth/database.c:102-143 | the same of the value-level operation |
| Ledger.AddCodes | src/auth/database.c:250-368 | 0 if and only if no call fails, the user is known and the sum fits; -2 exactly for an unknown user |
| Ledger.RemoveCodes | src/auth/database.c:370-491 | the same for removal, and -3 exactly for a missing file |
| Ledger.ToInt64IsSigned | src/auth/database.c:319 | a size is bound as the signed number with the same 64 bits |
| Ledger.SumOverflowsIff | src/auth/database.c:341-345 | the sum fails if and only if the sum of some first rows leaves the signed 64-bit range |
| Ledger.Database.UpdateUserQuota | src/auth/database.c:549-578 | 0 if and only if no call fails and the sum fits, and then the cached value is the sum; otherwise nothing changes |
| Ledger.UpsertMovesSum | src/auth/database.c:295-353 | the recomputed sum moves by new size minus old size, for that owner alone |
| Ledger.DeleteMovesSum | src/auth/database.c:415-476 | the recomputed sum drops by the removed size, for that owner alone |
| Ledger.RunKeepsConsistent | src/auth/database.c:250-578 | in every committed state each cached quota is the sum of that user's file sizes, whatever fails |
| Ledger.AddIsAllOrNothing | src/auth/database.c:250-368 | non-zero changes nothing; zero changes exactly the named file and moves that user's quota by the difference |
| Ledger.RemoveIsAllOrNothing | src/auth/database.c:370-491 | non-zero changes nothing; zero removes exactly the named file |
| Ledger.RecomputeChangesNothing | src/auth/database.c:549-578 | on a consistent ledger the recomputation corrects nothing |
| Ledger.CheckQuotaIsExactIff | src/auth/database.c:534-547 | the wrapping size_t comparison is the intended one if and only if the sum does not wrap to within the limit |
| Ledger.CheckQuotaIff | src/auth/database.c:534-547 | below wrap-around the check passes if and only if no call fails, the user is known and the claim fits |
| QuotaRace.OvershootBound | src/threads/client_thread.c:203-257 | committed plus checked-but-uncommitted bytes never exceed one limit per client thread; with one thread the limit is hard |
| QuotaRace.OvershootReached | src/threads/worker_thread.c:149-153 | with n client threads a run commits n whole limits |
| ServerQuota.StepIsRaceStep | src/threads/client_thread.c:203-257 | seen from the ledger each step of the whole server is one of the quota race: the committing worker's client holds the claim for just that upload |
| ServerQuota.ServerStaysWithinLimits | src/threads/worker_thread.c:149-153 | in every clear run of the server committed bytes plus the claims of uploads under way stay within one limit per client thread |
| ServerQuota.RowsStayTheLedgers | src/auth/database.c:250-491 | the metadata rows of the file service are at all times the sizes on record in the ledger |
| ServerQuota.UploadLetInIff | src/threads/client_thread.c:200-208 | at any time in such a run an upload is let in if and only if no query fails, the user is known, and the sum of the committed sizes and the new one is within the limit |
| ServerQuota.TransactionEndsOneWay | src/threads/worker_thread.c:152-165 | every transaction a worker comes to either goes through or fails, and the server has a step for both |
| StoredBytes.RecordsMatchDisk | src/threads/worker_thread.c:124-336 | without write and database faults the ledger has a size for a key iff there is a file, and it is the file's, when nobody works on it |
| StoredBytes.UsageIsOnDisk | src/threads/worker_thread.c:124-336 | a user's cached usage is the sum of sizes that are those of files on disk |
| Protocol.ConnectKeepsSessions | src/threads/client_thread.c:24-42 | a new connection gets a fresh id and disturbs no other client's session |
| Protocol.WaitingSessionIsFound | src/threads/worker_thread.c:20-23 | the session of a waiting client is registered and active |
| Protocol.StepKeepsSessions | src/threads/client_thread.c:24-352 | every step that cuts no session off keeps one registered session and one response per connected client |
| Protocol.RecentRunsAreClear | src/session/session_manager.c:10-13 | runs with recent live ids at each connection cut no session off |
| ProtocolFlow.RespondDelivers | src/threads/worker_thread.c:37-38 | a response always goes to the waiting client of the request, onto a response without payload |
| ProtocolFlow.StepKeepsFlow | src/threads/client_thread.c:281-314 | every step keeps each unanswered request in exactly one place, belonging to the client that waits for it |
| ProtocolBuffers.StepKeepsBuffers | src/threads/worker_thread.c:29-33 | every step keeps exactly one holder per live buffer and each freed buffer freed once |
| ProtocolResults.AnsweredExactlyOnce | src/threads/worker_thread.c:53-462 | over every run in which no session's end cuts another session off, each accepted request is either on its way or answered, never both, never twice, on its own session, and none is dropped |
| ProtocolExact.NeverDropsIff | src/session/session_manager.c:261-320 | over all runs in which ids do not wrap: no answer is ever dropped if and only if there is at most one client thread, one session slot, or no worker |
| ProtocolExact.AlwaysAnsweredOnceIff | src/threads/worker_thread.c:17-45 | the same condition decides whether each accepted request is on its way or answered once in all runs |
| ProtocolExact.AllRunsAreClear | src/session/session_manager.c:261-320 | with one client thread or one slot no session's end ever cuts another off |
| LostRequests.RequestIsLost | src/session/session_manager.c:306-317 | with two slots, two client threads and a worker or more, a run from start-up drops an answer and strands its client |
| ProtocolResults.ResponseReachesItsWaiter | src/threads/worker_thread.c:17-45 | when a worker responds, the session is active, its client waits for that very request, no live payload is overwritten, and the client can wake |
| ProtocolResults.ClientReadsItsOwnAnswer | src/threads/client_thread.c:304-314 | a client back from waiting reads the answer delivered to its own request, and its session is still active |
| ProtocolResults.AnsweredBeforeTheNext | src/threads/client_thread.c:295-306 | a request is answered before its session issues the next |
| ProtocolResults.BuffersFreedExactlyOnce | src/threads/client_thread.c:214-302 | no buffer is freed twice or held after its free, and at rest every buffer ever allocated has been freed |
| ProtocolResults.PushNeverWaits | src/queue/task_queue.c:43-44 | with no more client threads than cells the task queue is never full when a client pushes |
| ProtocolProgress.SomeWorkerActs | src/threads/worker_thread.c:53-462 | a worker with something to do means some worker can take a step for which no call has to fail, except a read of a file that vanished or shrank |
| ProtocolProgress.WorkerStepLowers | src/threads/worker_thread.c:53-462 | every worker step lowers (queued tasks, steps left, bytes left) |
| ProtocolProgress.StuckMeansAnswered | src/threads/worker_thread.c:53-462 | when no worker can take such a step other than leaving, every accepted request has been answered |
| ProtocolProgress.EveryRequestIsAnswered | src/main.c:231-258 | from every state reached without cutting a session off, such worker steps alone answer everything accepted, before and after shutdown |
| ProtocolExact.AlwaysSettlesIff | src/main.c:231-258 | over all runs such steps can always answer everything if and only if there are no clients, or a worker and at most one client thread or one slot |
| ProtocolProgress.EveryQueuedRequestSucceeds | src/threads/worker_thread.c:53-462 | after a run in which the files stayed serial, workers can answer everything with no failing call, and what was still queued gets a proper answer |
| ProtocolProgress.NothingLeftBehind | src/queue/task_queue.c:63-69 | when all workers have left, nothing is queued and nothing is unanswered |
| ProtocolHistory.StepKeepsLog | src/threads/worker_thread.c:63-362 | every step keeps log entries and requests matched one to one |
| ProtocolHistory.EveryAnswerHasItsEffect | src/threads/worker_thread.c:166-167 | each answer about a file has exactly one log entry, with its request's operation and the outcome delivered |
| ProtocolHistory.AnswerIsTheLoggedOne | src/threads/worker_thread.c:132-167 | when the log has an entry for the request of a delivery, its outcome is the one delivered |
| ProtocolHistory.EffectsFollowRealTime | src/threads/client_thread.c:295-306 | what was answered before a request was pushed took effect before it |
| ProtocolHistory.DownloadSeesAcknowledgedUpload | src/threads/worker_thread.c:186-293 | a download requested after an upload of the same file was acknowledged, under whatever name, returns that upload's bytes or later ones that took effect before it, and finds no file only if a delete or a failed write took effect in between |
| ProtocolRequests.RequestsAreAsked | src/threads/client_thread.c:196-300 | in every run each request is for the command its client gave last, or the path it announced with the bytes that then arrived, before it pushed |
| ProtocolRequests.DownloadReturnsBytesSent | src/threads/worker_thread.c:186-293 | every download returns bytes that some client sent for that file, or those found at start-up |
| ProtocolRequests.DownloadReturnsLatestSent | src/threads/worker_thread.c:186-293 | after an acknowledged upload they are that client's bytes, or bytes sent for an upload that took effect later |
| ProtocolRequests.ListingsAreBuilt | src/threads/worker_thread.c:364-450 | a listing delivered is the reply a worker built for that very request, which asked for one |
| ProtocolRequests.AnswersCarryTheirPayload | src/threads/worker_thread.c:236-293 | in every run a ready response has a payload if and only if its outcome is a fetched file or a listing |
| ProtocolConversation.ClientKeepsOrder | src/threads/client_thread.c:165-352 | in every run a client thread takes its steps in the order of its loop, and branches on a refused push and a failed send |
| ProtocolConversation.BranchesAreOpen | src/threads/client_thread.c:165-352 | at each point of the loop exactly the branches of the source are possible, whatever the peer sends; only a push into a full queue and the wait for an answer wait |
| ProtocolConversation.WorkerBranchesAreOpen | src/threads/worker_thread.c:51-59 | a worker takes a task when there is one and leaves only when the queue is empty and shut down; every step of its task may come, failing calls included, and the answer only at the end |
| ProtocolConversation.ShutdownIff | src/queue/task_queue.c:78-87 | the queue is shut down if and only if somebody asked for it |
| ProtocolConversation.NothingAcceptedLater | src/queue/task_queue.c:45-49 | from then on no request is accepted |
| ProtocolConversation.ServerWindsDown | src/main.c:231-258 | once a shutdown was asked for, ordinary worker steps answer everything accepted, and then all workers leave |
| ProtocolLimits.DestroyOnTheWayStrands | src/threads/worker_thread.c:20-27 | ending a session on the way of a waiting client's session, before the worker looks it up, drops the answer |
| ProtocolLimits.StrandedForEver | src/session/response_queue.c:68-81 | that client never wakes up and its request is never answered, whatever happens then |
| Framing.Inbound.Recv | src/utils/network_utils.c:27 | one receive takes a prefix of what is available and writes it at the given offset only |
| Framing.RecvFull | src/utils/network_utils.c:14-59 | the next bytes of the stream land in the buffer, as many as asked or as there are; never negative for a positive length |
| Framing.SendFull | src/utils/network_utils.c:67-113 | the result is exactly the number of bytes that left, in order |
| Framing.ReceiveUpload | src/threads/client_thread.c:224-257 | with the command line at the first newline that has no NUL before it, the payload is what is behind it, if that does not start with NUL, and then the stream; incomplete exactly when there are too few bytes; the network-error branch is dead |
| Framing.SentIsReceived | src/threads/client_thread.c:224-257 | a line, a payload and more arrive as that payload, however the first chunk cuts them behind the line and the rest is delivered, unless NUL is first behind the line in that chunk |
| Framing.CutDoesNotMatterIff | src/threads/client_thread.c:224-235 | every size is framed right if and only if nothing or a non-NUL byte follows the command line in the first chunk |
| Framing.NulLeftoverIsLost | src/threads/client_thread.c:227-228 | a concrete stream where a NUL first byte is dropped |
| Framing.ChunkingIsInvisible | src/threads/client_thread.c:169-257 | two ways of cutting and delivering one stream give one payload |
| ListReply.BuildReply | src/threads/worker_thread.c:400-440 | the buffer loop produces the specified reply within 4095 bytes |
| ListReply.AllKeptIff | src/threads/worker_thread.c:412-419 | no name is lost if and only if all lines stay below 4095 bytes |
| ListReply.SplitUndoesJoin | src/threads/worker_thread.c:421-422 | splitting at newlines gives the names back in order |
| ListReply.ReplyRoundTrip | src/threads/worker_thread.c:400-446 | a client decodes a prefix of the filtered directory if the names part is at most 4086 bytes, and otherwise sees no end line |
| ListReply.WholeListingIff | src/threads/worker_thread.c:437 | a client gets the whole directory if and only if all its lines take at most 4086 bytes |
| ListReply.VisibleCounts | src/threads/worker_thread.c:405-410 | four names are kept back and every other one is listed as often as it is there |
| ListReply.ListedIff | src/threads/worker_thread.c:405-446 | when the lines fit, a client is told of a name if and only if it is in the directory and none of the four |
| ListReply.CutShortUnnoticed | src/threads/worker_thread.c:415-419 | a name that does not fit ends the loop, and the reply still looks complete |
| ListReply.SixteenLongNames | src/threads/worker_thread.c:412-419 | sixteen names of 255 bytes are enough for that |
| UserFileStore.UserFiles.AddFile | src/auth/user_metadata.c.backup:159-203 | search, doubling growth, the cut to 255 bytes and the running quota on the array do what the specification says; a failed realloc changes nothing |
| UserFileStore.StoredIsFoundIff | src/auth/user_metadata.c.backup:167-196 | a stored file is found again if and only if its name was not cut |
| UserFileStore.UserFiles.RemoveFile | src/auth/user_metadata.c.backup:205-232 | the shift-left loop removes exactly the named entry |
| UserFileStore.PutUsed | src/auth/user_metadata.c.backup:174 | the wrapping running quota is always the total modulo 2^64 |
| UserFileStore.LedgerAcceptsIff | src/auth/database.c:319-345 | the ledger accepts an upload the array store accepts if and only if the new total fits in a signed 64-bit integer |
| UserFileStore.StepRefines | src/auth/user_metadata.c.backup:159-232 | one operation gives the same codes, file map and quota in both stores |
| UserFileStore.RunRefinesLedger | src/auth/user_metadata.c.backup:159-232 | on every trace within bounds both stores end with the same file map and quota |
| UserFileStore.NewUserRefines | src/auth/user_metadata.c.backup:62-95 | a new user starts equal in both |
| UserTable.UserDatabase.HashUsername | src/auth/user_metadata.c.backup:12-21 | the loop gives the home slot used by the proofs |
| UserTable.HashIsPolynomial | src/auth/user_metadata.c.backup:12-21 | the hash is the characters as digits to the base 31, modulo 2^32 |
| UserTable.UserDatabase.Find | src/auth/user_metadata.c.backup:97-125 | the search loop ends where the specification says |
| UserTable.UserDatabase.AddUser | src/auth/user_metadata.c.backup:127-157 | the insertion loop fills the specified slot, or refuses at 3/4 load |
| UserTable.GetIff | src/auth/user_metadata.c.backup:107-121 | a user is found if and only if it is in the table |
| UserTable.AddSucceedsIff | src/auth/user_metadata.c.backup:134-138 | adding succeeds if and only if the load is below 3/4 |
| UserTable.AddKeepsUsers | src/auth/user_metadata.c.backup:142-153 | an added user is found, and every other one stays in its slot |
| UserTable.AddAllKeepsUsers | src/auth/user_metadata.c.backup:97-157 | over any additions the table is the set of accepted users |

## Left out

- Authentication, password hashing, the `sscanf` parsing of command lines and the text of messages are not modelled; a session in the model is an authenticated one, and a parsed command is an argument of its step.
- The client program (`client/`), socket setup, the accept loop and the signal handler are not modelled; shutdown is one step that sets the task queue's flag.
- SQLite, pthread primitives and the allocator are specified primitives that may fail where the source checks for it; ROLLBACK and mutex operations are taken to succeed.
- The order in which SQLite visits rows for SUM matters only for overflow of intermediate sums; the model sums in table order.
- `Protocol`: condition variables are not repeated inside the server machine. A push waits for room and a wait for `ready` as enabling conditions; that no wakeup is lost is proved in `QueueMonitor` and `Responses`.
- `Protocol`: `session_create` and the `session_get` after it are one step, and the client queue's descriptors appear as arguments of `Connect`.
- `Protocol`: the check of `is_active` after `response_wait` (`src/threads/client_thread.c:309-314`) has no step, because `ProtocolResults.ClientReadsItsOwnAnswer` shows that its branch is never taken.
- `Protocol`: the worker's counters touched after `ready` is set are not modelled, since the client may already be tearing the session down.
- `ProtocolResults.AnsweredExactlyOnce`, `ProtocolProgress.EveryRequestIsAnswered` and the other results on the whole server assume that no session's end frees a slot on another session's way and that the 64-bit id counter does not wrap; `ProtocolExact` drops the first assumption and says which servers answer everything without it.
- `FileService`: a removed file that another worker still has open keeps its data on a POSIX system; the model's disk is a map from paths to contents. This matters only in runs outside the hypotheses of `SerialInLockOrder`.
- `FileService`: LIST is one step with an arbitrary reply, because a directory read is not atomic with other workers' changes; the reply's format is proved in `ListReply`.
- `FileServiceExact.AlwaysSerialIff`, `FileServiceExact.AlwaysIntactIff` and `FileServiceExact.AlwaysAgreedIff`: every key is taken to reach a place that can hold a file; directories, `mkdir`, links and a detour through a directory that does not exist are not modelled, so keys that can only fail count like others.
- `FileService`: metadata rows go by the key, which is right as long as user names hold no slash (`FileLocks.SlashInUserNameSharesKey`).
- `ProtocolProgress.EveryQueuedRequestSucceeds`: for the same reason a key that names a directory is answered like a file, where the source reports an error.
- `ServerQuota`: a command whose check fails or whose buffer cannot be allocated leaves the server as it was and is no step; ids of sessions and users are not tied together, an upload is charged to the user named in its key.
- `FileService`: what `fclose` fails to write is lost from the end of the file.
- `LockProtocol`: `ref_count` is unbounded; the source's `int` would need 2^31 threads to overflow.
- `UserFileStore.UserFiles.AddFile`: a name cut to 255 bytes is taken to be terminated, which the source's `strncpy` does not ensure after a `realloc`; the `int` capacity is unbounded.
- `UserStore` leaves out saving and loading: the loaded count is read before the file rows and the index never advances, so no round trip holds.
- `Framing.ReceiveUpload`: a failing `malloc` before the transfer sends an error and leaves the state as it was; bytes behind the payload in the first chunk are dropped, as in the source.
- Timestamps, idle tracking, statistics output, logging and errno-specific texts are not modelled.
