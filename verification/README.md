# A striped network block device, verified

A kernel block device is served by a daemon that cuts every request into 1 KiB fragments, deals them round-robin over
several in-memory "IoT" servers and puts the replies together again. Around it stand a priority thread pool, a C thread
pool, a waitable queue, a reactor, and two plain servers that keep the whole device in one buffer. This project models
these parts in Dafny and proves what they are for.

**The striped device** (`Striping`, `StripedDisk` and the modules named after it, `Wire`, `Daemon`). The daemon's threads,
the sockets and the servers are one transition system, `StripedDisk`; an action is one critical section or one system
call, and a run is any interleaving. The main results are in `StripedTheorems`: whatever the interleaving and the number of
servers, every request is answered as the loop of `buse_test.c` over one flat buffer (`FlatDisk`) answers it; the servers
hold that buffer between them; every request is completed once and last; and no interleaving reaches a null slicer, a freed
buffer or an overwritten map entry. `StripedInvariant` says why, `StripedPlaces` to `StripedMessages` show that every action
keeps it, and `StripedProgress` that every run ends. `Daemon` holds the objects of the daemon with their fields updated in
place, `Wire` the byte streams and the server's loop, and `StripedBytes` connects both with the transition system.

It assumes of the kernel what `Legal` and `Compatible` say: requests lie inside the device, start and length are multiples of
1024, and no two requests in flight overlap with one of them a WRITE. `Striping.SlicesCoverTheRequest` and
`StripedTheorems.IdleCompletions` say what happens to other requests. `StripedLooseRuns` and `StripedConflicts` run the same machine
without `Compatible`: `StripedTorn.ConflictsTear` gives, for any number of servers and any two requests whose order shows, a run
that is not what the flat disk makes of them. The device has at most 512 MiB, as the daemon opens it.
Live uids have to lie within 2^32 consecutive ones, which `StripedProgress.WindowKeepsUidsFree` turns into the condition
the actions use.

**The C++ thread pool** (`ThreadPool`, its invariant, theorems, progress and returns, `ThreadPoolObject`). Pausing and
shrinking are done with tasks at priorities above every user task. For any interleaving a pause holds and a shrink takes exactly
the right number of threads, and a call returns, as long as no paused pool has been shrunk. Shrinking a paused pool breaks
promises. The pool's test does it twice in a row and expects the pool to stay paused and the calls to return
(`framework/thread_pool/thread_pool_test2.cpp:129-138`); the code pushes one pause task too few for every thread it kills, and
exchanges the flags while threads are still held by the old one:

- the pause survives exactly when the size does not change (`ThreadPoolProgress.ShrinkingAPausedPool`), and not at all through
  size 0 (`EmptiedPoolForgetsThePause`);
- the first such call still returns (`ThreadPoolReturns.TameCallsReturn`), but a later shrink, or the destructor, can wait for
  ever. `ThreadPoolReturns.CallReturnsIff` is the exact condition on the state before the call, for every history, and
  `JoinReturnsIff` that on the state in the wait;
- `ThreadPoolCounterexample` gives a run for each: a lost pause, a second shrink that hangs, a destructor that hangs.

`ThreadPoolLiveness` is about Run: it ends a pause, and everything queued is started, the highest priority first.

`ThreadPoolObject` is the controlling thread's code as a class, with loops; workers may move between any two of its critical
sections. Its SetNumOfThreads asks for that exact condition and is proved to return.

**The C thread pool and the queue** (`TaskRing`, `TaskPool`, `WaitableQueue`): the ring is a bounded FIFO, tasks are
conserved, no wake-up is lost although signals can find nobody asleep and wake-ups can be spurious, and shutdown ends.

**The plain servers** (`NbdWire`, `NbdServer`): `serve_nbd` over the buffer of `busexmp.c`, and `buse.c` under the loop of
`buse_test.c`. The replies are a replay of the requests, and the kernel can take them apart again, at whatever pace it asks.

**The reactor** (`Reactor`): handlers may register and deregister while a round is dispatched; a round calls each ready
descriptor's handler once, exactly when no handler takes out a descriptor that is still to come.

The machines count threads by state with the lemmas of `Counting`; `Bytes` and `Atlas` hold copies, fragments and headers.

## Model

| member | source | states |
|---|---|---|
| `Striping.StripingIsInvertible` | concrete/slicer/slicer.cpp:42-71 | the device and offset the slicer computes for a block determine the block, for every number of servers |
| `Striping.StripingIsOnto` | concrete/slicer/slicer.cpp:42-71 | every whole fragment of every server is the place of some block |
| `Striping.FragmentsMeet` | concrete/slicer/slicer.cpp:42-71 | two fragments share a byte of a server if and only if they carry the same flat block |
| `Striping.Footprint` | concrete/atlas/iotserver_simple.cpp:22 | a server uses at most ceil(blocks/n) fragments, and server 0 exactly that many; for a device of at most 512 MiB that fits the storage and the 32-bit offset |
| `Striping.NextBlock` | concrete/slicer/slicer.cpp:65-70 | one turn of the slicing loop moves from the closed form of a block to the closed form of the next |
| `Striping.SlicesCoverTheRequest` | concrete/slicer/slicer.cpp:39-62 | the fragments carry exactly the bytes of the request if and only if the length is whole and, unless the request is empty, the start is aligned |
| `Striping.ShortTailIsDropped` | concrete/slicer/slicer.cpp:39 | an input that shows the other half: the last 512 bytes of a 1.5 KiB request are in no fragment |
| `FlatDisk.ByteHistory` | concrete/nbd_buse/buse_test.c:42-68 | every byte of the buffer is what the last write to it stored, or untouched |
| `Bytes.Copy` | concrete/nbd_buse/buse_test.c:58 | the in-place copy changes exactly its range of the buffer |
| `FlatDisk.ServeAll` | concrete/nbd_buse/buse_test.c:42-76 | the service loop over one buffer leaves the replay of all requests, and answers each as the replay of those before it |
| `Wire.HeaderRoundTrip` | concrete/atlas/atlas_header.h:7-17 | the 24 bytes of a header give back its six fields |
| `Wire.HeaderLayout` | concrete/atlas/atlas_header.h:11-16 | where each field is in the 24 bytes, least significant byte first |
| `Wire.ServerRecoversFrames` | concrete/slicer/slicer.cpp:108-140 | serving the bytes that any list of Senders wrote is serving the frames: the server finds every boundary |
| `Wire.RepliesAreAnswerable` | concrete/atlas/iotserver_simple.cpp:59-73 | a server answers with the data a READ announces and with a bare header for a WRITE |
| `Wire.DaemonRecoversReplies` | concrete/daemon/daemon_main.cpp:129-145 | the daemon parses the bytes of any list of replies into exactly those replies |
| `Wire.BytesCarryTheProtocol` | concrete/atlas/iotserver_simple.cpp:38-76 | frames to bytes, served from bytes, answered in bytes, parsed: the same storage and the same replies as with whole frames |
| `Wire.ReadAll` | concrete/daemon/daemon_main.cpp:148-166 | however recv splits the stream, the buffer holds its first `count` bytes, or all there were and -1 |
| `Wire.WriteAll` | concrete/nbd_buse/BUSE-master/buse.c:77-91 | however write splits the data, all of it is on the socket, once and in order |
| `Atlas.WhatAServerDoes` | concrete/atlas/iotserver_simple.cpp:59-73 | byte by byte: what a READ is answered with, what a WRITE stores, that other types are ignored, and exactly when a frame runs over the storage |
| `Wire.ServeOne` | concrete/atlas/iotserver_simple.cpp:59-73 | after the header, one turn of the server does in place what the frame says, including a WRITE whose data is cut short |
| `Wire.Serve` | concrete/atlas/iotserver_simple.cpp:38-76 | the endless loop, for any chunking and any stream that stays inside the storage, ends with the storage and output of the stream |
| `Wire.ManageReplies` | concrete/daemon/daemon_main.cpp:129-145 | takes exactly one reply off the stream, with unspecified bytes for a WRITE; if the stream ends first, makes a task of what there is |
| `Daemon.Slicer.Slice` | concrete/slicer/slicer.cpp:26-75 | the loop that never divides after its first turn places fragment k on device (first + k) mod n at offset (first + k) div n times 1024, numbers the request with the counter cut to 32 bits, and counts the fragments |
| `Daemon.Slicer.IsReplyReady` | concrete/slicer/slicer.cpp:97-104 | counts down with the wrap-around of size_t and reports zero |
| `Daemon.Splicer.Request` | concrete/communication_manager/communication_manager.cpp:36-49 | registers the new slicer under its uid before anything is sent, and no other entry of the map changes |
| `Daemon.Splicer.Reply` | concrete/communication_manager/communication_manager.cpp:51-67 | copies one fragment in place, counts down, and erases exactly the entry whose last reply this is |
| `Daemon.Sender` | concrete/slicer/slicer.cpp:108-140 | prints header, or header and data, or nothing, on one socket |
| `Daemon.Send` | concrete/communication_manager/communication_manager.cpp:69-79 | each socket receives the frames of its own parts, in order; nothing else is written |
| `Daemon.RoutedIsDealt` | concrete/communication_manager/communication_manager.cpp:69-79 | what Send routes to server d is the frames of exactly the fragments whose block is on d, in ascending order |
| `Daemon.CommunicationManager.Request` | concrete/communication_manager/communication_manager.cpp:97-101 | one request end to end on the objects: registered under the next uid, and every server's socket gets the frames of exactly its fragments, in order; no other socket is written |
| `Daemon.MergedBlocks` | concrete/communication_manager/communication_manager.cpp:59-61 | after replies in any order and with repetitions, a fragment is the answer if it has been merged and untouched otherwise |
| `Daemon.MergeInAnyOrder` | concrete/communication_manager/communication_manager.cpp:59-61 | the buffer is the whole answer exactly when every fragment that differs has been merged, in whatever order |
| `Daemon.MergeOffsetAgrees` | concrete/communication_manager/communication_manager.cpp:59-61 | the offset multiplied out on reply is the one the fragment was cut from, without 32-bit overflow for any int32_t length |
| `StripedEntries.SlicerLifetime` | concrete/communication_manager/communication_manager.cpp:63-66 | a slicer stays in the map exactly while some fragment is unmerged; one without fragments stays for ever |
| `StripedEntries.MergeEntry` | concrete/communication_manager/communication_manager.cpp:51-67 | a reply keeps the books of its request; the counter does not underflow and is zero exactly at the last reply |
| `StripedEntries.AnswerIsReady` | concrete/nbd_communication/nbd_communication.cpp:39-44 | when the last share of a request is given up all its fragments are merged, and a READ's buffer is the flat disk's answer |
| `StripedEntries.ReadIsCurrent` | concrete/atlas/iotserver_simple.cpp:61-64 | what a server reads for a fragment is what the flat disk held when the request was fetched |
| `StripedEntries.WriteServed` | concrete/atlas/iotserver_simple.cpp:66-69 | a served WRITE fragment becomes current and moves no other flat block, on any server |
| `StripedSteps.AcceptKeeps` | concrete/daemon/daemon_main.cpp:120-127 | fetching a compatible request keeps the invariant |
| `StripedSteps.SliceKeeps` | concrete/slicer/slicer.cpp:26-75 | slicing keeps the invariant |
| `StripedSteps.RegisterKeeps` | concrete/communication_manager/communication_manager.cpp:41-44 | registering keeps the invariant and overwrites no live slicer |
| `StripedSteps.SendKeeps` | concrete/slicer/slicer.cpp:108-140 | sending one fragment keeps the invariant and reads only a live buffer |
| `StripedSteps.SentFrame` | concrete/slicer/slicer.cpp:123-132 | the frame on the socket carries the kernel's original bytes, whatever replies have been merged into the buffer |
| `StripedSteps.ReleaseKeeps` | concrete/communication_manager/communication_manager.cpp:97-101 | the end of the request task keeps the invariant |
| `StripedSteps.DropSlicerKeeps` | concrete/communication_manager/communication_manager.cpp:51-67 | the end of a reply task, outside the lock, keeps the invariant |
| `StripedMessages.ServeOutcome` | concrete/atlas/iotserver_simple.cpp:59-73 | a server turn on a frame of any reachable state stays inside the storage, answers from or renews the right block, and keeps the storage invariant |
| `StripedMessages.ServeKeeps` | concrete/atlas/iotserver_simple.cpp:38-76 | a server turn keeps the invariant |
| `StripedMessages.ReceiveKeeps` | concrete/daemon/daemon_main.cpp:129-145 | reading one reply keeps the invariant |
| `StripedMessages.MergeKeeps` | concrete/communication_manager/communication_manager.cpp:51-67 | merging one reply keeps the invariant |
| `StripedTheorems.StepKeeps` | concrete/communication_manager/communication_manager.cpp:36-101 | every action of every thread keeps the invariant and breaks nothing |
| `StripedTheorems.NothingBreaks` | concrete/communication_manager/communication_manager.cpp:51-67 | in no run is a null slicer followed, a buffer left, a completed request touched or a live slicer overwritten |
| `StripedTheorems.LogIsWhatTheKernelAsked` | concrete/daemon/daemon_main.cpp:120-127 | the requests a run is about are those the kernel handed over, unchanged and in order |
| `StripedTheorems.WholeRequestsAreTaken` | concrete/daemon/daemon_main.cpp:120-127 | any request of whole fragments inside the device is taken at any time, unless it overlaps one in flight and one of them is a WRITE |
| `StripedTheorems.AnyInterleaving` | concrete/daemon/daemon_main.cpp:110-145 | any message on any socket, any reply task and any request task can be next |
| `StripedTheorems.AnswersAreThoseOfTheFlatDisk` | concrete/nbd_buse/buse_test.c:42-76 | for every number of servers and every interleaving, each completed request is answered once, with what the flat loop answers |
| `StripedTheorems.StorageIsTheFlatDisk` | concrete/nbd_buse/buse_test.c:55-62 | at any moment each block is the flat disk's, unless a WRITE in flight covers it |
| `StripedTheorems.QuietStorageIsTheFlatDisk` | concrete/nbd_buse/buse_test.c:55-62 | once no WRITE is in flight the servers hold exactly the flat disk between them |
| `StripedTheorems.FreshServersShowZeros` | concrete/atlas/iotserver_simple.cpp:22 | newly started servers hold a flat disk of zeros |
| `StripedTheorems.CountIsWhatIsPending` | concrete/slicer/slicer.cpp:73-104 | m_countSlices is the number of fragments unsent, on a socket or in a reply task, and the slicer is in the map exactly as long as there is one |
| `StripedTheorems.EveryMessageHasItsSlicer` | concrete/communication_manager/communication_manager.cpp:55-56 | every frame and reply in flight has its uid in the map, and no two messages on any sockets of any servers are about the same fragment |
| `StripedTheorems.WritesTravelUnharmed` | concrete/communication_manager/communication_manager.cpp:59-61 | every WRITE frame in flight holds the original bytes, and its offset and server are those of its block |
| `StripedTheorems.CompletionComesLast` | concrete/nbd_communication/nbd_communication.cpp:29-47 | NbdRequestDone runs only after the Send loop has ended, every fragment is merged and no reply task holds the slicer |
| `StripedTheorems.IdleCompletions` | concrete/slicer/slicer.cpp:134-138 | when nothing is left to run, a request has been completed if and only if it was a READ or WRITE of at least 1 KiB |
| `StripedProgress.EveryActionUsesWork` | concrete/communication_manager/communication_manager.cpp:69-101 | without new requests every run is finite under every schedule |
| `StripedProgress.WorkIsNeverStuck` | concrete/daemon/daemon_main.cpp:110-145 | while anything is left an action is enabled, if the next uid is free |
| `StripedProgress.UidCollisions` | concrete/slicer/slicer.cpp:35-36 | two uids are equal exactly when their counter values are a multiple of 2^32 apart; the 64-bit wrap does not show |
| `StripedProgress.UidIsItsTurn` | concrete/slicer/slicer.cpp:33-37 | a request's uid is the number of slices before it, cut to 32 bits |
| `StripedProgress.WindowKeepsUidsFree` | concrete/slicer/slicer.cpp:33-37 | if live slicers lie within 2^32 consecutive ones the next uid is free |
| `StripedBytes.SocketsCarryEveryRun` | concrete/daemon/daemon_main.cpp:129-166 | in every run, what is on either direction of every socket survives printing and parsing, and a server fed the bytes serves exactly those frames |
| `StripedBytes.TurnsServeTheFrames` | concrete/atlas/iotserver_simple.cpp:38-76 | the server turns of the transition system are the server's loop over its frames |
| `StripedBytes.SendersPrintTheFrames` | concrete/slicer/slicer.cpp:108-140 | each send of the transition system puts on the socket exactly what Sender prints for the part that Slice made |
| `StripedBytes.RepliesMeetTheSplicer` | concrete/communication_manager/communication_manager.cpp:51-67 | every reply task of every run meets the demands of Splicer::Reply, and the transition system does what Reply does |
| `StripedConflicts.RunThatCuts` | concrete/communication_manager/communication_manager.cpp:69-79 | if conflicting requests may be in flight together, then for every number of servers, every two requests and every fragment there is a run in which the one is carried out between the fragments of the other; it ends with both completed, and this is what it stores and answers |
| `StripedTorn.CutLooksLike` | concrete/nbd_buse/buse_test.c:42-76 | that run is what the flat disk makes of the two in the one order if and only if the order shows in no block carried out in the other; both orders, storage and answers, WRITE against WRITE and READ against WRITE |
| `StripedTorn.DifferIsConflict` | concrete/communication_manager/communication_manager.cpp:69-79 | two requests whose order shows in a block conflict, so the assumption about the kernel keeps them from being in flight together |
| `StripedTorn.ConflictsTear` | concrete/nbd_buse/buse_test.c:42-76 | so any two requests whose order shows in a block have a run unlike the flat disk in their order, and if it shows in two blocks one unlike it in any order |
| `ThreadPoolInvariant.StepKeeps` | framework/thread_pool/thread_pool.cpp:27-196 | every action keeps the books: suicide tasks, dying, dead and joined threads add up, and the thread map holds exactly the live threads |
| `ThreadPoolInvariant.PauseStepKeeps` | framework/thread_pool/thread_pool.cpp:44-56 | while the flag is down there is a pause task for every thread not in one, through all calls but shrinking a paused pool |
| `ThreadPoolTheorems.NothingBreaks` | framework/thread_pool/thread_pool.cpp:187 | at() on the thread map never throws |
| `ThreadPoolTheorems.HaltedStartsNothing` | framework/thread_pool/thread_pool.cpp:77-100 | in a halted pool the task of highest rank is never a user task |
| `ThreadPoolTheorems.PauseHolds` | framework/thread_pool/thread_pool.cpp:44-56 | from the return of the constructor or Pause until Run no user task starts, through any Pause, grow, running shrink, AddTask and destruction |
| `ThreadPoolLiveness.RunEndsThePause` | framework/thread_pool/thread_pool.cpp:35-42 | after Run, from any state between calls, user tasks can start if and only if there is a thread |
| `ThreadPoolLiveness.RunStartsEverything` | framework/thread_pool/thread_pool.cpp:35-42 | after Run the workers come to rest under every schedule, and then the queue is empty and every user task that was queued has been started |
| `ThreadPoolLiveness.HighestPriorityFirst` | framework/thread_pool/thread_pool.cpp:22-25 | a worker can pop a user task if and only if nothing internal and no user task of higher priority is queued |
| `ThreadPoolLiveness.InternalTasksFirst` | framework/thread_pool/thread_pool.hpp:34 | suicide tasks come before pause tasks, and those before user tasks |
| `ThreadPoolTheorems.ShrinkTakesExactly` | framework/thread_pool/thread_pool.cpp:138-196 | when a shrink from m to n or a destruction has returned, exactly m-n distinct threads have taken a suicide task and those are the ones gone |
| `ThreadPoolProgress.EveryStepUsesWork` | framework/thread_pool/thread_pool.cpp:58-63 | every step inside a call and of a worker uses up work, so calls end |
| `ThreadPoolReturns.JoinIsNeverStuck` | framework/thread_pool/thread_pool.cpp:182-190 | while the join waits for a zombie and no more suicide tasks are queued than threads are loose, some worker can move |
| `ThreadPoolReturns.JoinReturnsIff` | framework/thread_pool/thread_pool.cpp:182-190 | in any state of the join, the wait ends under every schedule if and only if the queued suicide tasks are at most the loose threads; otherwise it ends under none |
| `ThreadPoolReturns.CallReturnsIff` | framework/thread_pool/thread_pool.cpp:58-63 | between calls of any history: a call returns under every schedule if and only if it does not shrink the pool or no more threads can be held back than it leaves alive; otherwise some schedule blocks it for ever |
| `ThreadPoolReturns.TameCallsReturn` | framework/thread_pool/thread_pool.cpp:138-196 | if no paused pool has been shrunk before, every call returns under every schedule: also the first shrink of a paused pool, and destruction |
| `ThreadPoolReturns.CallsAreNeverStuck` | framework/thread_pool/thread_pool.cpp:58-63 | in any run whose shrinks met that condition, a call that has not returned always has a next step |
| `ThreadPoolProgress.CoveredRun` | framework/thread_pool/thread_pool.cpp:92-109 | if the useful pause tasks cover the loose threads between calls, no continuation by workers and AddTask starts a user task |
| `ThreadPoolProgress.Escape` | framework/thread_pool/thread_pool.cpp:92-109 | if they do not, the workers can start a queued user task by themselves |
| `ThreadPoolProgress.PauseHoldsIff` | framework/thread_pool/thread_pool.cpp:92-109 | between calls no user task starts, whatever the workers do and whatever is added, if and only if the useful pause tasks are at least as many as the loose threads |
| `ThreadPoolProgress.ShrinkingAPausedPool` | framework/thread_pool/thread_pool.cpp:148-164 | when SetNumOfThreads(m), 0 < m <= size, on a paused pool has returned: no user task has started meanwhile and none starts afterwards, whatever the workers do and whatever is added, if and only if m was the size already |
| `ThreadPoolProgress.EmptiedPoolForgetsThePause` | framework/thread_pool/thread_pool.cpp:148-164 | after SetNumOfThreads(0) on a paused pool nothing starts, but the threads of the next SetNumOfThreads are not paused |
| `ThreadPoolCounterexample.ShrinkLosesAPause` | framework/thread_pool/thread_pool.cpp:148-164 | a run that shows it: two paused threads shrunk to one start a user task without Run |
| `ThreadPoolCounterexample.SecondShrinkHangs` | framework/thread_pool/thread_pool.cpp:165-190 | a run that blocks for ever: a second shrink before the threads have left PauseTask1 |
| `ThreadPoolCounterexample.DestructorHangs` | framework/thread_pool/thread_pool.cpp:193-196 | a run in which the destructor blocks for ever: the threads are in PauseTask2 and the pool has been paused again |
| `ThreadPoolObject.PoolObject.constructor` | framework/thread_pool/thread_pool.cpp:27-33 | with workers moving at any time, the constructor returns a paused pool of n threads with exactly n pause tasks, queued or taken |
| `ThreadPoolObject.PoolObject.Run` | framework/thread_pool/thread_pool.cpp:35-42 | raises both flags and touches no queue and no thread |
| `ThreadPoolObject.PoolObject.AddTask` | framework/thread_pool/thread_pool.cpp:65-68 | queues the task under its priority |
| `ThreadPoolObject.PoolObject.Pause` | framework/thread_pool/thread_pool.cpp:44-56 | returns with the flag down, the other flag and the number of threads as before, and exactly one more pause task per thread, queued or taken |
| `ThreadPoolObject.PoolObject.PushPauses` | framework/thread_pool/thread_pool.cpp:49-55 | the loop pushes a pause task per thread, or per thread about to be created |
| `ThreadPoolObject.PoolObject.CreateThreads` | framework/thread_pool/thread_pool.cpp:128-136 | creates the missing threads while the others move |
| `ThreadPoolObject.PoolObject.AwaitZombie` | framework/thread_pool/thread_pool.cpp:184-186 | the blocking pop ends under every choice of which worker moves next |
| `ThreadPoolObject.PoolObject.JoinZombies` | framework/thread_pool/thread_pool.cpp:182-190 | joins and erases exactly the awaited number of threads |
| `ThreadPoolObject.PoolObject.PushSuicides` | framework/thread_pool/thread_pool.cpp:142-146 | the loop pushes a suicide task for every thread to kill while workers move |
| `ThreadPoolObject.PoolObject.SwapFlags` | framework/thread_pool/thread_pool.cpp:148-180 | exchanges the flags of a paused pool and pushes the pause tasks counted from thread_to_kill, for either flag |
| `ThreadPoolObject.PoolObject.SetNumOfThreads` | framework/thread_pool/thread_pool.cpp:58-63 | asks for exactly the condition under which the call returns; returns whatever the workers do, with n threads in the map and, after a shrink, as many more distinct suicides as it shrank by or, after a paused grow, exactly one more pause task per new thread |
| `ThreadPoolObject.PoolObject.Destruct` | framework/thread_pool/thread_pool.cpp:193-196 | likewise, with no thread left |
| `TaskRing.SlotIsModulo` | concrete/nbd_buse/BUSE/threadpool.c:168-169 | the wrapped index is (head + count) mod queue_size |
| `TaskRing.PutUnrolled` | concrete/nbd_buse/BUSE/threadpool.c:185-188 | storing at the tail appends to the list the ring stands for |
| `TaskRing.TakeUnrolled` | concrete/nbd_buse/BUSE/threadpool.c:293-297 | advancing the head removes its first element |
| `TaskRing.Ring.Add` | concrete/nbd_buse/BUSE/threadpool.c:168-195 | accepts into the bounded FIFO exactly while there is room and no shutdown, reports a full queue exactly when it is full, and keeps tail == (head + count) mod queue_size |
| `TaskRing.Ring.Turn` | concrete/nbd_buse/BUSE/threadpool.c:282-306 | a worker under the lock sleeps, leaves or takes the oldest task, as the list says |
| `TaskPool.TasksAreConserved` | concrete/nbd_buse/BUSE/threadpool.c:292-303 | every accepted task is exactly one of pending and neither run nor finished, run by one worker, or finished once; tasks begin in the order of acceptance |
| `TaskPool.NoLostWakeUp` | concrete/nbd_buse/BUSE/threadpool.c:190-228 | before shutdown, if a worker sleeps un-signalled then the pending tasks are at most the awake workers; afterwards nobody sleeps |
| `TaskPool.ImmediateStartsNothing` | concrete/nbd_buse/BUSE/threadpool.c:286-290 | once immediate shutdown is set no task begins |
| `TaskPool.FreedIffAllLeft` | concrete/nbd_buse/BUSE/threadpool.c:248-252 | threadpool_free gives the pool back if and only if every worker has left, so joining all of them is enough |
| `TaskPool.GracefulFinishesEverything` | concrete/nbd_buse/BUSE/threadpool.c:286-290 | when all workers have left after a graceful shutdown every accepted task is finished, if and only if the pool had a worker or no task |
| `TaskPool.GracefulDestroyFinishes` | concrete/nbd_buse/BUSE/threadpool.c:223-239 | after threadpool_destroy with the graceful flag, when all workers have left, every task ever accepted is finished |
| `TaskPool.ImmediateDestroyStartsNothing` | concrete/nbd_buse/BUSE/threadpool.c:223-239 | after threadpool_destroy without it no task begins |
| `TaskPool.AcceptedWhenThereIsRoom` | concrete/nbd_buse/BUSE/threadpool.c:171-188 | a task is accepted exactly when fewer than queue_size are pending and the pool has not been destroyed |
| `TaskPool.ShutdownUsesWork` | concrete/nbd_buse/BUSE/threadpool.c:276-308 | after the flag every worker step lowers a measure, and no more tasks are accepted |
| `TaskPool.ShutdownIsNeverStuck` | concrete/nbd_buse/BUSE/threadpool.c:276-308 | until all workers have left one of them can step |
| `WaitableQueue.NoLostWakeUp` | framework/waitable_queue/waitable_queue.hpp:31-51 | elements leave in the order they came; if a popper waits un-notified the elements are at most the awake poppers and the pending notifications |
| `WaitableQueue.FirstInFirstOut` | framework/waitable_queue/waitable_queue.hpp:31-51 | what has been popped, followed by what is queued, is what Push was called with, in order |
| `WaitableQueue.PopTakesTheFront` | framework/waitable_queue/waitable_queue.hpp:41-51 | Pop on a queue that is not empty takes its front and returns |
| `WaitableQueue.PushWakesOne` | framework/waitable_queue/waitable_queue.hpp:31-39 | Push appends, and its notification sends exactly one waiting thread back to look |
| `WaitableQueue.StillnessIsHarmless` | framework/waitable_queue/waitable_queue.hpp:31-51 | when no thread can move by itself, nobody waits or nothing is there |
| `NbdWire.NtohllReverses` | concrete/nbd_buse/BUSE-master/buse.c:52-58 | ntohll reverses all eight bytes and is its own inverse |
| `NbdWire.NetworkBytes64` | concrete/nbd_buse/BUSE-master/buse.c:52-58 | the eight bytes of a 64-bit field, most significant first |
| `NbdWire.RequestLayout` | concrete/nbd_buse/buse.c:149-156 | the 28 bytes of a request, with the magic and the command numbers of linux/nbd.h |
| `NbdWire.ReplyLayout` | concrete/nbd_buse/buse.c:154-156 | the 16 bytes of a simple reply: magic, no error, handle |
| `NbdWire.FieldsComeBack` | concrete/nbd_buse/buse.c:149-156 | the fields decoded from a request header are those the kernel encoded |
| `NbdServer.OneMoreReply` | concrete/nbd_buse/BUSE-master/buse.c:153-154 | one more request adds one reply at the end of the stream |
| `NbdServer.OneMoreCall` | concrete/nbd_buse/BUSE-master/buse.c:124-200 | the replay of one more request, on the disk and on the socket |
| `NbdServer.KernelRecoversAnswers` | concrete/nbd_buse/BUSE-master/buse.c:125-154 | from the reply bytes alone a kernel that issues requests at any pace, and uses no handle again before its reply, recovers each answer under its handle, in order |
| `NbdServer.KernelGetsTheReplay` | concrete/nbd_buse/BUSE-master/buse.c:125-154 | so what the server has sent after any of the calls is to the kernel the replay of the memory |
| `NbdServer.DiskReplaysTheWrites` | concrete/nbd_buse/BUSE-master/busexmp.c:39-45 | each byte of the device that a WRITE has covered is what the last such WRITE stored |
| `NbdServer.DiskKeepsTheRest` | concrete/nbd_buse/BUSE-master/busexmp.c:39-45 | each other byte is the initial one |
| `NbdServer.AnswersReplayTheWrites` | concrete/nbd_buse/BUSE-master/busexmp.c:31-45 | each byte a READ is answered with that an earlier WRITE covers is from the last such WRITE |
| `NbdServer.AnswersKeepTheRest` | concrete/nbd_buse/BUSE-master/busexmp.c:31-45 | each other byte is the initial one |
| `NbdServer.CallsInTheDeviceAreServable` | concrete/nbd_buse/BUSE-master/busexmp.c:31-45 | nothing is asked of the kernel but READs and WRITEs inside the device, WRITEs with their data |
| `NbdServer.StreamGrows` | concrete/nbd_buse/buse.c:149-160 | the stream is each request's header followed by a WRITE's data |
| `NbdServer.PatientKernelAsks` | concrete/nbd_buse/BUSE-master/buse.c:124 | a kernel that issues one request at a time is one of those meant |
| `NbdServer.HastyKernelAsks` | concrete/nbd_buse/BUSE-master/buse.c:124 | and so is one that issues all at once under different handles |
| `NbdServer.ServeCall` | concrete/nbd_buse/BUSE-master/buse.c:126-195 | one turn of the switch leaves the replayed buffer, one reply, and the stream at the next request |
| `NbdServer.ServeNbd` | concrete/nbd_buse/BUSE-master/buse.c:117-205 | the reply stream is one reply per request up to the first disconnect and nothing after it, and the kernel recovers the replay from it; only a read that brings part of a header aborts the loop, and then this holds of the requests served so far |
| `NbdServer.ReadData` | concrete/nbd_buse/buse.c:170-187 | however the stream is split, exactly the announced bytes are taken; if they never all come the loop spins |
| `NbdServer.NbdGetRequest` | concrete/nbd_buse/buse.c:128-168 | takes one request off a stream that may end anywhere, and prepares the reply with its handle, exactly when all of it comes and a WRITE's length fits int32_t |
| `NbdServer.NbdRequestDone` | concrete/nbd_buse/buse.c:228-250 | writes the prepared header, and the data only for a READ, exactly when the length of both fits int32_t |
| `NbdServer.ServeRequest` | concrete/nbd_buse/buse_test.c:44-74 | one turn of the loop replays one request |
| `NbdServer.AllAnsweredIff` | concrete/nbd_buse/buse.c:128-250 | all calls are answered if and only if all their bytes come and the lengths fit int32_t |
| `NbdServer.OverrunsIff` | concrete/nbd_buse/buse.c:170-189 | a buffer is left exactly for a WRITE longer than 0x7FFFFFFF and a READ whose reply is |
| `NbdServer.ServeBuse` | concrete/nbd_buse/buse_test.c:42-76 | on a stream that may end anywhere, the loop leaves the replay of the calls it can answer, the same replay as serve_nbd |
| `Reactor.AscendingListsTheSet` | framework/reactor/imonitor.cpp:44-55 | the scan meets exactly the ready descriptors |
| `Reactor.AscendingIsSorted` | framework/reactor/imonitor.cpp:44-55 | in ascending order |
| `Reactor.StaysRegistered` | framework/reactor/reactor.hpp:49-83 | after any changes a descriptor has a handler exactly when the last change about it was a registration or it had one and nothing was said; registering again does not replace the handler |
| `Reactor.RegistrationCounts` | framework/reactor/reactor.hpp:49-54 | a registration of a descriptor without a handler gives it that handler, until it is taken out |
| `Reactor.TurnsInOrder` | framework/reactor/reactor.hpp:67-75 | the k-th call is the k-th ready descriptor's handler, as the earlier handlers left it |
| `Reactor.RoundCompletesIff` | framework/reactor/reactor.hpp:71 | a round completes if and only if no handler takes out a ready descriptor that is still to come |
| `Reactor.EveryReadyFdIsCalledOnce` | framework/reactor/reactor.hpp:67-75 | then every ready descriptor's handler is called exactly once, in ascending order, and nothing else is; it is the handler from before the round unless an earlier one took that out |
| `Reactor.OneHandlerLosesAnother` | framework/reactor/reactor.hpp:71 | an input that shows the other half |
| `Reactor.SelectMonitor.RegisterRead` | framework/reactor/imonitor.cpp:18-23 | watches the descriptor and keeps m_maxfd the largest ever registered |
| `Reactor.SelectMonitor.Deregister` | framework/reactor/imonitor.cpp:25-29 | stops watching it; m_maxfd still bounds what is watched |
| `Reactor.SelectMonitor.WaitForEvents` | framework/reactor/imonitor.cpp:31-37 | the ready set is every watched descriptor the kernel finds readable, and the count is its size |
| `Reactor.SelectMonitor.GetNextReadEvent` | framework/reactor/imonitor.cpp:44-55 | the next ready descriptor, and -1 exactly when there is none |
| `Reactor.Reactor.RegisterReadEventHandler` | framework/reactor/reactor.hpp:49-54 | adds this handler if the descriptor has none and changes nothing otherwise; the handlers' keys stay the watched set |
| `Reactor.Reactor.DeregisterEventHandler` | framework/reactor/reactor.hpp:78-83 | keeps the handlers' keys equal to the watched set |
| `Reactor.Reactor.Dispatch` | framework/reactor/reactor.hpp:67-75 | the counting loop calls what the ready set says, even when handlers change registrations meanwhile |
| `Reactor.Reactor.RunOnce` | framework/reactor/reactor.hpp:59-76 | one turn of Run: it fails exactly when select does; otherwise the handlers of every watched readable descriptor are called as the round says, or `at` throws |

## Left out

- Sockets, `select`, threads and condition variables are represented by what they may do: any split of a stream, any part of
  the watched set, any interleaving, spurious wake-ups. `ioctl`, `fork`, signals, printing and `usleep` are not represented.
- The striped device, the workers of both pools and the waitable queue are transition systems on values, since what matters
  about them is what other threads do between two critical sections; updates in place are shown by the classes of `Daemon`,
  `TaskRing` and `ThreadPoolObject`, and aliasing between those objects only where their contracts name it.
- `WaitableQueue` has no class of its own: its Pop waits for other threads. The timed Pop is not part of this model.
- Unaligned requests and requests outside the device are excluded by `Legal`, conflicting ones in flight by `Compatible`; what
  becomes of conflicting ones is shown for one family of runs, not for all.
- FLUSH, TRIM and DISC in the striped path are accepted but never completed, as in the code; `IdleCompletions` says so.
- Daemon.Sender: `send` is taken to transmit everything, which the code relies on without looking at its result.
- NbdServer.NbdGetRequest: where a length leaves int32_t the outcome is `Overruns` and nothing is said of what the C code does
  then; failing `malloc` and I/O errors are not modelled.
- NbdServer.ServeNbd: read and write errors other than a short header read are not modelled; the backend's callbacks are
  those of `busexmp.c`, which never fail.
- ThreadPoolObject.PoolObject.AddTask: one controlling thread makes all calls, one after the other; in the transition system
  AddTask may come at any time.
- User tasks end and do not throw (a throw would silently end the worker). The second unlock of the already unlocked mutex in
  Run and Pause is taken as none. `std::priority_queue` is a multiset with a choice among the highest, and the order among
  equals is open.
- TaskPool.FreedIffAllLeft: the unsynchronised increments of `started` while the pool is created, failing pthread calls, and
  a second threadpool_destroy, which leaves the lock held, are not modelled.
- Reactor.SelectMonitor.WaitForEvents: the ready set after a failed `select` is left as it was copied; `FD_SET` and `FD_CLR`
  are only given descriptors below FD_SETSIZE.
- Reactor.Reactor.RunOnce: the endless loop around it, and the lifetime of a handler that deregisters itself while it runs.
- The order of bytes in the atlas header is that of a little-endian machine at both ends.
- `NbdOpen`, `buse_main`, `IoTManager`, option parsing and the `main` functions; Dispatcher, Factory, Singleton, Logger,
  Scheduler, DirMonitor, DllLoader and Command: set-up, thin wrappers and easy members.
- `concrete/daemon/daemon_main_old_draft.cpp` and `framework/reactor/unused`: dead code.
