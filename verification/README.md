# TaskMessenger: a verified model of the dispatcher

TaskMessenger hands tasks from producers to remote workers. Producers put task
messages on a queue; one session coroutine per worker takes them off, sends each
over a socket, reads the response and wakes the submitter. The dispatcher keeps
many such coroutines on a polling event loop. A rendezvous service lets the two
sides find each other, a tunnel carries packets over TCP when nothing else works,
and a code generator turns skill definitions into serialisation code.

This project models that core in Dafny 4.11 and proves what it is meant to
guarantee. `dafny verify dfyconfig.toml` verifies everything.

## How it is laid out

| files | what they model |
|---|---|
| `Tasks`, `TaskQueue` | task messages and ids; the queue with its parked coroutines, as a class and as functions on values |
| `Dispatch`, `DispatchWaiters`, `DispatchTasks`, `DispatchTheorems` | the dispatcher as a state machine: any number of producers and sessions around one queue, with cancellation, shutdown, I/O failures and the response executor |
| `Responses` | the executor on which submitters resume |
| `Reaping` | the session manager's cleanup pass |
| `EventLoop` | the polling loop with any number of threads, and its statistics |
| `Wire`, `Streams` | the task header; sockets that move bytes in arbitrary pieces, and the adapter over them |
| `WorkerLoops` | the worker's blocking and coroutine loops |
| `SessionLoop` | the session's exchange of one task after the other over its adapter |
| `Lockstep`, `LockstepSafety` | one connection: a session, two byte channels, a worker |
| `Frames`, `Tunnel` | rendezvous frames; the tunnel's deframer, write queue and encoder |
| `CancelRaces` | cancelling the rendezvous client and the snapshot reporter |
| `Rendezvous` | the rendezvous server and its history |
| `SkillKey`, `Registry` | FNV-1a skill ids (section 2 of draft-eastlake-fnv) and the registry's two maps |
| `SkillFields`, `SkillTarget`, `SkillFactory`, `SkillNames`, `SkillBuilt`, `SkillScatter`, `SkillCompiler` | the skill generator as a compiler into a small target language with names, loops and stores |
| `SkillExamples` | a shipped definition that meets the generator's hypotheses, and definitions that fail |
| `Common`, `Counting` | shared vocabulary |

## How to read the machines

A step is one atomic load or store, or one section under a lock; runs are lists
of steps, and every theorem is about all of them. Atomics are sequentially
consistent. `resume()` only makes the resumed coroutine runnable, so its next
steps may come at once, as on the real stack, or later: the real schedules are
among the runs. What the outside decides (socket results, clocks, the node's
verdict on a packet, which cancelled tokens a section happens to see) is chosen
by the steps or passed in. `add_task` is `add_tasks` with one task; a batch takes
its tasks to the queue one after the other, which allows every behaviour of the
one long section.

Lemmas by induction give their induction themselves (`{:induction false}`).

## Where code and comments differ

The model follows the code.

* The queue does accept tasks after `shutdown`: `add_task` loads the flag before
  it takes the lock. `AddsAfterShutdown` says exactly how many,
  `LateAdderCanAdd` that each of them still can, and `TaskEntersAfterShutdown`
  shows one.
* A session asked to terminate while parked never reaches its final suspend
  through cleanup, because `COMPLETING` is not a state that awaits teardown
  (`TerminationLeavesSession`), and neither does a dead one whose waiter an add
  has discarded in between (`AddLosesExactly`, `OrphanStays`).
* `timed` exceeds `completed + failed` exactly while a response has been timed and
  not yet judged, in a session in which nothing ever failed before its timing
  (`SessionAccounting`; `TimedAhead` is a run).
* The received-byte counters of the two worker loops differ when a stream ends
  inside a body, and the loops differ altogether above 16 MiB
  (`CountsAgreeExactly`, `BytesAgreeExactly`, `OversizedFrameSplits`).
* A response vector sized by a dimension called `i` is not zeroed: the emitted loop
  compares its own variable with itself (`ZeroedExactly`; `LoopVariableCaptured` is
  a definition). Dimensions become parameters under their own names, so one called
  like a local, `builder` for instance, does not compile; nor does a matrix whose
  size variable is another field's pointer, or a dim that is another field's
  vector variable (`CompilesExactly`, `ScatterExactly`, `BuilderClashes`).
* The generator accepts definitions whose factories cannot compile for other
  reasons: without any field the constructor call ends in a comma
  (`EmptyDoesNotCompile`), a response sized by a dimension missing from the shape
  names something undeclared (`UndeclaredDimension`), and a dimension called like
  the type of dimensions hides it from the parameters after it
  (`ParameterTypeHidden`).
* `extract_shape` looks a matrix up by its field name where the struct has its
  pointer name. Two matrices that swap the two are read in place of each other
  (`ReadsExactly`; `SwappedReadEachOther` is a definition).
* An operation whose `resume()` throws has been taken off the list and is left out
  of the statistics (`LoopAccounting`, `ProcessPendingOps`).
* `DispatcherApp::stop` unregisters through a client it has just cancelled; such
  an exchange does nothing (`RefusedAfterCancel`).
* Frames whose body has 2^32 - 1 bytes or more pass the length test and are not
  read back (`Frames.RoundTripExactly`).
* Two snapshot reports at the same time could lose a socket; one at a time, as
  the monitoring thread calls them, cannot (`AlwaysReachedExactly`).

## Model

| member | source | states |
|---|---|---|
| Tasks.TaskIdGenerator.GetNextId | generators/common/TaskIdGenerator.hpp:20-26 | the k-th caller gets 1 + (k mod (2^32 - 1)), so no id is 0, wrap-around included |
| Tasks.ZeroNeedsALap | generators/common/TaskIdGenerator.hpp:20-26 | with any number of callers, a call can return 0 only if the others drew at least 2^32 - 1 times between its two draws |
| Tasks.ZeroExactly | generators/common/TaskIdGenerator.hpp:20-26 | a call whose first draw came out 0 returns 0 if and only if its second draw lies whole laps of the counter later |
| TaskQueue.TaskMessageQueue.AddTask | message/TaskMessageQueue.cpp:67-98 | with the flag set the task is dropped and nothing changes; otherwise cancelled waiters at the front are discarded and the first other one gets the task, or it is stored |
| TaskQueue.TaskMessageQueue.TakeFront | message/TaskMessageQueue.cpp:177-190 | takes the oldest task or changes nothing |
| TaskQueue.TaskMessageQueue.DrainCancelled | message/TaskMessageQueue.cpp:200-212 | removes exactly the cancelled waiters and keeps the order of the rest |
| TaskQueue.TaskMessageQueue.CancelAndResumeWaiter | message/TaskMessageQueue.cpp:214-238 | removes one waiter of that session, empties its result slot, keeps all others in order |
| TaskQueue.TaskMessageQueue.Shutdown | message/TaskMessageQueue.cpp:149-170 | the first caller takes all waiters, any later one none |
| TaskQueue.EnqueueExact | message/TaskMessageQueue.cpp:72-97 | who is served, who is discarded and what is stored, for every queue and every set of cancelled tokens |
| TaskQueue.WithoutExact | message/TaskMessageQueue.cpp:214-238 | taking out a session's waiter leaves exactly the others |
| DispatchWaiters.StepWaitInv | message/TaskMessageQueue.cpp:38-238 | every step keeps the waiter invariant: slots empty while parked, one roster entry per park, nobody parks after the swap |
| DispatchTheorems.Reachable | dispatcher/session/Session.cpp:71-258 | every state of every run satisfies the whole invariant |
| DispatchTheorems.EveryTaskInOnePlace | dispatcher/session/Session.cpp:99-243 | each submitted task is queued, in one slot, held by one actor, completed or dropped at shutdown, exactly once; the validity test discards none |
| DispatchTheorems.FirstInFirstOut | message/TaskMessageQueue.cpp:38-137 | tasks delivered, then tasks queued, are the adds in lock order; tasks or waiters are empty; waiters are served in parking order |
| DispatchTheorems.NoLostOrDoubleWakeup | message/TaskMessageQueue.cpp:38-238 | who can be resumed is parked with an empty slot; no park is resumed twice; a parked coroutine out of reach has a cancelled token |
| DispatchTheorems.NobodyParksAfterSwap | message/TaskMessageQueue.cpp:38-170 | after shutdown's swap no waiter is ever queued, although the flag is set outside the lock |
| DispatchTheorems.ShutdownWakesEveryone | message/TaskMessageQueue.cpp:149-170 | when shutdown has finished, only cancelled coroutines are still parked |
| DispatchTheorems.AddsAfterShutdown | message/TaskMessageQueue.cpp:67-137 | after the flag is stored, tasks enter only on behalf of adders that had loaded it clear |
| DispatchTheorems.LateAdderCanAdd | message/TaskMessageQueue.cpp:67-137 | and every run with such an adder left goes on to one in which a further task enters, whoever holds the lock |
| DispatchTheorems.TaskEntersAfterShutdown | message/TaskMessageQueue.cpp:67-72 | a run in which a task is queued after shutdown has swapped the waiters out and resumed them all |
| DispatchTheorems.SubmitterResumedOnce | message/TaskSubmitAwaitable.hpp:56-78 | a submitter is resumed at most once, and only after its own task was completed with its own id |
| DispatchTheorems.StopReturnsDrained | message/ResponseContext.hpp:83-102 | in every run, when stop returns, every accepted handle has been resumed and nothing is queued |
| DispatchTheorems.DrainedUntilRestart | message/ResponseContext.hpp:110-117 | from then on nothing is queued or resumed until a restart |
| DispatchTheorems.SessionAccounting | dispatcher/session/Session.cpp:117-243 | sent = completed + failed + in flight; completed <= timed; timed + untimed failures = completed + failed + a response being judged; so timed <= completed + failed unless a response is being judged and no failure was untimed, and only then not |
| DispatchTheorems.TimedAhead | dispatcher/session/Session.cpp:162-191 | a run in which timed exceeds completed + failed |
| DispatchTheorems.OneWaiterPerSession | message/TaskMessageQueue.cpp:38-65 | in every run no session is queued twice, which a cleanup pass relies on |
| DispatchTheorems.TeardownStartsLeaving | message/TaskMessageQueue.cpp:214-238 | resuming a parked session for teardown leaves it with an empty message and nothing else |
| DispatchTheorems.LeavingForGood | dispatcher/session/Session.cpp:99-116 | from then on, whatever else happens, it takes no task, never parks and can only finish |
| DispatchTheorems.LeavingFinishes | dispatcher/session/Session.cpp:99-116 | and it can finish at once by at most two steps of its own |
| Responses.StepInv | message/ResponseContext.hpp:53-175 | every step keeps: offered handles are rejected, queued, in one worker's hands or resumed; first in, first out |
| Responses.StopDrains | message/ResponseContext.hpp:83-175 | the executor on its own: when its stop can return, resumed equals accepted |
| Reaping.SessionManager.Cleanup | dispatcher/session/SessionManager.cpp:119-192 | a pass removes exactly the sessions completed after probe and resume, keeps the other waiters in order and records the newest 100 removals, newest first |
| Reaping.SessionManager.ProbeAll | dispatcher/session/Session.cpp:293-335 | every waiting session with a dead peer becomes terminated and cancelled, no other changes |
| Reaping.SessionManager.ResumeAll | dispatcher/session/SessionManager.cpp:119-138 | every parked terminal session is resumed and finishes; exactly their waiters leave |
| Reaping.SessionManager.RemoveCompleted | dispatcher/session/SessionManager.cpp:145-186 | exactly the completed sessions go, each recorded at the front of the list |
| Reaping.KeepsNewestFirst | dispatcher/session/SessionManager.cpp:172-175 | after any series of records the list holds the newest hundred, or all, each at its place counted from the newest |
| Reaping.PassInSteps | dispatcher/session/SessionManager.cpp:119-143 | probing, resuming and draining amount to one pass over each session |
| Reaping.RemovedExactly | dispatcher/session/Session.cpp:287-344 | the case analysis behind Cleanup: a session goes if and only if completed, or done and waiting with a dead peer, or parked and terminal or waiting with a dead peer; live waiting ones are untouched |
| Reaping.OrphanStays | dispatcher/session/Session.cpp:287-344 | the case Cleanup never removes: suspended, terminal or asked to terminate, without a waiter |
| Reaping.AddLosesExactly | message/TaskMessageQueue.cpp:72-97 | an add loses a waiter, neither serving nor keeping it, if and only if it and all before it are seen cancelled |
| Reaping.LostIsNotResumed | message/TaskMessageQueue.cpp:214-238 | a session that loses its waiter so is not found again when it is to be resumed |
| Reaping.TerminationLeavesSession | dispatcher/session/Session.cpp:277-285 | a case of the same analysis: a parked session asked to terminate is evicted from the queue and stays in the map |
| EventLoop.OperationsConserved | transport/coro/coroIoContext.cpp:134-226 | each registered operation is in one list, one thread's hands or retired; its coroutine is resumed at most once, after an attempt completed or threw |
| EventLoop.RetriedExactly | transport/coro/coroIoContext.cpp:145-210 | what a batch puts back is exactly its unfinished operations, in order |
| EventLoop.PutBackInOrder | transport/coro/coroIoContext.cpp:134-210 | in every run a thread appends those behind whatever was registered meanwhile |
| EventLoop.LoopAccounting | transport/coro/coroIoContext.cpp:157-194 | total = sum of buckets; n * min <= failure sum <= n * max despite saturation; at quiescence total = sum of per-thread counts; an operation whose resume throws is in none of them |
| EventLoop.BookedConsistent | transport/coro/coroIoContext.cpp:157-194 | booking one operation keeps the statistics consistent |
| EventLoop.CoroIoContext.ProcessPendingOps | transport/coro/coroIoContext.cpp:134-210 | one pass: resumes exactly the finished live operations in order, books exactly those whose resume returned, each with its failures so far, keeps the rest in order behind new arrivals and counts one failure more for each; the statistics stay consistent |
| Wire.HeaderRoundTrip | message/TaskMessage.hpp:29-42 | the 12-byte little-endian header decodes to what was encoded |
| Streams.Socket.Read | transport/socket/zerotier/ZeroTierSocket.cpp:699-775 | all or error: fails exactly when the connection ends first, with the bytes so far |
| Streams.Socket.Write | transport/socket/zerotier/ZeroTierSocket.cpp:777-847 | writes everything or reports exactly the bytes accepted before the failure |
| Streams.Socket.TryRead | transport/socket/zerotier/ZeroTierSocket.cpp:328-373 | moves a prefix of the stream; an error only at its end |
| Streams.Socket.TryWrite | transport/socket/zerotier/ZeroTierSocket.cpp:408-447 | moves a prefix of the data; an error only on a failed connection |
| Streams.CoroSocketAdapter.TryCompleteRead | transport/coro/CoroSocketAdapter.hpp:258-295 | an attempt extends the filled part by the next stream bytes and is over exactly when full or failed |
| Streams.CoroSocketAdapter.TryCompleteWrite | transport/coro/CoroSocketAdapter.hpp:258-329 | an attempt sends the next bytes of the buffer, contiguously |
| Streams.CoroSocketAdapter.AsyncRead | transport/coro/CoroSocketAdapter.hpp:143-206 | for every schedule of partial and would-block results: exactly the requested bytes, or an error with exactly the progress |
| Streams.CoroSocketAdapter.AsyncWrite | transport/coro/CoroSocketAdapter.hpp:208-233 | the same for writes |
| WorkerLoops.BlockingRuntime.ReadTask | worker/runtime/BlockingRuntime.cpp:22-51 | returns the next task or fails exactly on a cut or oversized frame; the short-read branches are dead |
| WorkerLoops.BlockingRuntime.WriteResponse | worker/runtime/BlockingRuntime.cpp:54-81 | writes exactly the frame, or the prefix the connection took |
| WorkerLoops.BlockingRuntime.RunOnce | worker/runtime/BlockingRuntime.cpp:236-300 | one round: bytes written and all counters |
| WorkerLoops.BlockingRuntime.RunLoop | worker/runtime/BlockingRuntime.cpp:211-303 | for every fragmentation the loop does what its specification says of the stream |
| WorkerLoops.AsyncRuntime.ReadRequest | worker/runtime/AsyncRuntime.cpp:205-239 | header and body, counting the header even when the body is cut |
| WorkerLoops.AsyncRuntime.RunOnce | worker/runtime/AsyncRuntime.cpp:198-277 | one round of the coroutine loop |
| WorkerLoops.AsyncRuntime.RunLoop | worker/runtime/AsyncRuntime.cpp:187-281 | for every fragmentation the coroutine loop does what its specification says of the stream |
| WorkerLoops.LoopsAgree | worker/runtime/AsyncRuntime.cpp:198-281 | within 16 MiB both loops write the same bytes, complete the same tasks and end alike; received counts differ only by a header whose body is cut |
| WorkerLoops.BeyondLimit | worker/runtime/BlockingRuntime.cpp:37-39 | beyond the limit the coroutine loop counts more |
| WorkerLoops.CountsAgreeExactly | worker/runtime/BlockingRuntime.cpp:22-51 | received counts agree if and only if no frame is oversized and none cut in its body |
| WorkerLoops.BytesAgreeExactly | worker/runtime/BlockingRuntime.cpp:37-39 | the written bytes agree if and only if the coroutine loop writes no answer to an oversized frame |
| WorkerLoops.OversizedFrameSplits | worker/runtime/BlockingRuntime.cpp:37-39 | an oversized frame is answered by one loop and not by the other |
| WorkerLoops.AnswersInOrder | worker/runtime/BlockingRuntime.cpp:227-303 | for any list of requests both loops write exactly their responses, in order, under their own ids, and count every byte |
| SessionLoop.Session.Exchange | dispatcher/session/Session.cpp:117-191 | one task, for every fragmentation: which verdict, what is written, what is left of the stream, and counters that add up |
| SessionLoop.Session.Send | dispatcher/session/Session.cpp:134-139 | writes exactly the task's frame, or the prefix the connection took, and counts only the former |
| SessionLoop.Session.Receive | dispatcher/session/Session.cpp:141-191 | the verdict and all counters as the response stream decides them |
| SessionLoop.Session.ServeAll | dispatcher/session/Session.cpp:99-191 | on the stream a worker answers with, every task completes with its own skill's result, every request is written and every response used up |
| SessionLoop.CompletesExactly | dispatcher/session/Session.cpp:141-191 | a task completes if and only if the stream starts with a whole response frame under its own id and skill |
| SessionLoop.WorkerAnswers | worker/runtime/AsyncRuntime.cpp:198-281 | either worker loop writes that stream for what the session writes |
| LockstepSafety.StepKeeps | dispatcher/session/Session.cpp:71-200 | every step keeps: what was read, what is in the channel and what is unsent make up one frame, in one direction |
| LockstepSafety.NoMismatch | dispatcher/session/Session.cpp:147-191 | no run reaches a mismatch branch or refuses the greeting; every completion carries its own task's id, skill and the skill's own answer |
| LockstepSafety.OneOutstanding | dispatcher/session/Session.cpp:99-191 | the worker has handled exactly the completed tasks, in order, and at most the current one |
| LockstepSafety.IdleMeansQuiet | dispatcher/session/Session.cpp:99-118 | between tasks both channels are empty and the worker waits for a header |
| LockstepSafety.RegistryIsSane | skills/registry/SkillRegistry.cpp:135-144 | a worker whose buffers come from a registry meets the hypotheses of the above |
| Frames.ReadExact | rendezvous/RendezvousProtocol.hpp:43-55 | exactly the next bytes, or failure exactly when the stream is shorter; over the socket's own all-or-error read its zero-byte branch is dead |
| Frames.WriteExact | rendezvous/RendezvousProtocol.hpp:58-70 | all bytes, or the prefix the connection took; the zero-byte branch is dead as well |
| Frames.ReadMessage | rendezvous/RendezvousProtocol.hpp:75-107 | consumes one frame, four bytes of a bad length, or fails on a cut stream |
| Frames.WriteMessage | rendezvous/RendezvousProtocol.hpp:109-131 | writes one frame; a refused body writes nothing |
| Frames.RefusedExactly | rendezvous/RendezvousProtocol.hpp:109-114 | below 2^32 - 1 bytes a body is refused if and only if it has more than 65535 |
| Frames.ReadsExactlyFrames | rendezvous/RendezvousProtocol.hpp:75-131 | a read yields a message and a rest if and only if the stream is that message's frame and that rest |
| Frames.RoundTripExactly | rendezvous/RendezvousProtocol.hpp:109-131 | a written frame is read back if and only if its body has at most 65535 bytes |
| Frames.SequenceRoundTrip | rendezvous/RendezvousProtocol.hpp:75-131 | any sequence of messages is read back, one frame a read |
| Frames.ReadMessages | rendezvous/RendezvousProtocol.hpp:75-107 | reading several messages is parsing the stream, under any fragmentation |
| Tunnel.TcpConnection.OnTcpData | subprojects/libzt-wrapper/NodeService.cpp:719-812 | one callback has the effect of the specification on queue, packets and close |
| Tunnel.ChunkInvariance | subprojects/libzt-wrapper/NodeService.cpp:719-812 | any chunking delivers the packets of the whole stream and closes alike |
| Tunnel.SameBytesSameEffect | subprojects/libzt-wrapper/NodeService.cpp:719-812 | two chunkings of the same bytes cannot be told apart |
| Tunnel.TcpConnection.OnTcpWritable | subprojects/libzt-wrapper/NodeService.cpp:820-845 | moves bytes from queue to socket; their concatenation is unchanged |
| Tunnel.TcpConnection.SendPacket | subprojects/libzt-wrapper/NodeService.cpp:1735-1761 | takes a packet whole or not at all; sent plus queued is always the frames of the packets taken |
| Tunnel.RoundTripExactly | subprojects/libzt-wrapper/NodeService.cpp:1740-1757 | the encoder's output decodes to the same address, port and data if and only if there are at most 65528 bytes |
| Tunnel.StreamRoundTrip | subprojects/libzt-wrapper/NodeService.cpp:719-812 | however it is cut, a stream of frames yields its packets and nothing is left over |
| Tunnel.EndToEnd | subprojects/libzt-wrapper/NodeService.cpp:820-845 | the far end has always received a prefix of the packets taken, and all once the queue is empty |
| CancelRaces.CancelReachesSocket | rendezvous/RendezvousClient.cpp:77-154 | a cancel past its critical section holds the socket in flight; one that returned has shut it down |
| CancelRaces.NothingStartsAfterCancel | rendezvous/RendezvousClient.cpp:93-122 | once the flag is stored no exchange begins input or output |
| CancelRaces.RefusedAfterCancel | rendezvous/RendezvousClient.cpp:93-98 | an exchange begun after a cancel opens nothing |
| CancelRaces.SlotStaysEmpty | dispatcher/monitoring/SnapshotReporter.cpp:15-108 | after a cancel's critical section the slot is empty for ever, whatever any number of reports do |
| CancelRaces.ReporterCancelReachesSocket | dispatcher/monitoring/SnapshotReporter.cpp:15-108 | with one report at a time, a socket still in use after cancel is shut down or about to be |
| CancelRaces.TwoReportsLoseASocket | dispatcher/monitoring/SnapshotReporter.cpp:36-61 | for any number of reports above one, a run after which a socket in use was never shut down |
| CancelRaces.AlwaysReachedExactly | dispatcher/monitoring/SnapshotReporter.cpp:15-108 | cancel reaches the socket in use in every run if and only if there is at most one report at a time |
| Rendezvous.RendezvousServer.HandleRegister | services/rendezvous/RendezvousServer.cpp:181-207 | the state is that of the history with this registration; a bad body changes nothing |
| Rendezvous.RendezvousServer.HandleUnregister | services/rendezvous/RendezvousServer.cpp:209-230 | the state is that of the history with this unregister; a bad body changes nothing |
| Rendezvous.RendezvousServer.HandleDiscover | services/rendezvous/RendezvousServer.cpp:232-257 | found if and only if the latest registration stands and has the role; its address; stale if and only if not seen within the TTL |
| Rendezvous.RendezvousServer.OnSnapshot | services/rendezvous/RendezvousServer.cpp:259-266 | the state is that of the history with this snapshot |
| Rendezvous.FoundExactly | services/rendezvous/RendezvousServer.cpp:181-257 | discovery finds an endpoint if and only if the latest registration has the role and no matching unregister followed |
| Rendezvous.StaleExactly | services/rendezvous/RendezvousServer.cpp:232-266 | it gives that registration's address, stale if and only if neither it nor a matching snapshot since lies within the TTL |
| Rendezvous.SnapshotIsLatest | services/rendezvous/RendezvousServer.cpp:259-266 | the stored snapshot is the last one received, whoever sent it |
| SkillKey.FromName | skills/registry/SkillKey.hpp:29-36 | the loop computes the 32-bit FNV-1a hash |
| SkillKey.TimesPrimeInjective | skills/registry/SkillKey.hpp:29-36 | multiplying by the prime is injective modulo 2^32 |
| SkillKey.CommonSuffix | skills/registry/SkillKey.hpp:29-36 | a common suffix neither creates nor hides a collision |
| SkillKey.OneByteSeparates | skills/registry/SkillKey.hpp:29-36 | names of one length that differ in one byte get different ids |
| SkillKey.NeighboursSeparate | skills/registry/SkillKey.hpp:29-36 | so do names that differ within two neighbouring bytes |
| Registry.SkillRegistry.RegisterSkill | skills/registry/SkillRegistry.cpp:28-46 | fails exactly when the id is in force under another name; otherwise the maps are those of the longer history |
| Registry.SkillRegistry.Clear | skills/registry/SkillRegistry.cpp:175-179 | both maps are emptied and nothing registered before counts any more |
| Registry.SkillRegistry.GetSkillId | skills/registry/SkillRegistry.cpp:58-65 | the id of the latest registration under that name since the last clear |
| Registry.SkillRegistry.GetSkillName | skills/registry/SkillRegistry.cpp:67-74 | the name of the latest registration under that id, or the empty name |
| Registry.SkillRegistry.CreateResponseBuffer | skills/registry/SkillRegistry.cpp:135-144 | the buffer is made by the latest skill registered under the id, and carries that id |
| Registry.LookupsAreLatest | skills/registry/SkillRegistry.cpp:28-74 | both lookups answer with the latest registration since the last clear |
| Registry.AbortsExactly | skills/registry/SkillRegistry.cpp:34-42 | a history aborts if and only if two names in force together share an id |
| Registry.InverseExactly | skills/registry/SkillRegistry.cpp:28-84 | the two maps are inverse to each other if and only if no name is in force under two ids |
| Registry.HashedSkillsAreInverse | skills/registry/SkillRegistry.cpp:28-84 | which holds for all skills whose id is the hash of their name |
| Registry.TwoIdsBreakInverse | skills/registry/SkillRegistry.cpp:28-46 | one name under two ids breaks it |
| Registry.RespondKeepsId | skills/registry/SkillRegistry.cpp:135-144 | after any history a response buffer carries the id asked for |
| SkillFields.ParseFields | skills/codegen/skill_generator.py:49-69 | each matrix that names its dimensions is followed by its two dim fields; all else is kept in order |
| SkillFields.ParsedIsWellFormed | skills/codegen/skill_generator.py:49-69 | definitions without dim fields of their own are well-formed once expanded, if names stay distinct |
| SkillBuilt.EmitCreateRequest | skills/codegen/skill_generator.py:411-524 | for every shape, what is emitted is made if and only if there is a field, names are kept apart and the shape has every dimension used, and then builds the table meant |
| SkillBuilt.EmitCreateResponse | skills/codegen/skill_generator.py:527-661 | the same for the response factory, which computes its parameters, sees nothing but their values and must not hide their type |
| SkillBuilt.RequestMade | skills/codegen/skill_generator.py:411-524 | for every well-formed definition and shape the request is made if and only if there is a field, names are kept apart and every dimension used is in the shape; then every field has its size and every dim its value |
| SkillBuilt.ResponseMade | skills/codegen/skill_generator.py:527-661 | called with any values of its parameters, the response is made if and only if there is a field, names are kept apart, no parameter before the last is called like their type and every dimension used is one of the shape's; all data is zeroed but where a loop is captured by its own variable |
| SkillBuilt.ZeroedExactly | skills/codegen/skill_generator.py:600-617 | the response is all zero if and only if no vector or bytes field is sized by a dimension `i` that is not 0 |
| SkillNames.CompilesExactly | skills/codegen/skill_generator.py:411-661 | the factories compile, as far as syntax and names go, if and only if there is a field, no parameter is a local or hides its type from the next, no size variable is a pointer or offset, no outer name is hidden and no struct member is shared |
| SkillFactory.OffsetsDeclaredOnce | skills/codegen/skill_generator.py:442-661 | in both factories every offset given to the table constructor is declared by exactly one statement, and stands at its field's place in the schema |
| SkillScatter.EmitScatter | skills/codegen/skill_generator.py:209-404 | on every table, what is emitted dereferences nothing null and succeeds if and only if names are kept apart and the table is complete and consistent |
| SkillScatter.ScatterExactly | skills/codegen/skill_generator.py:209-316 | scatter code compiles if and only if dims and members keep their names apart; then, on any table, it dereferences nothing null and succeeds if and only if the table is complete and consistent |
| SkillCompiler.ReadsExactly | skills/codegen/skill_generator.py:718-741 | on a ready request the access expression of a dimension compiles and reads its value if and only if it does not go through a dim, or the matrix reached under the dim's stem has that value on that side |
| SkillCompiler.OwnNamesReadRight | skills/codegen/skill_generator.py:718-741 | which is so for every dimension and shape when matrices are reached under their own names |
| SkillCompiler.EmitExtractShape | skills/codegen/skill_generator.py:832-862 | what is emitted returns the shape of every ready request if and only if every dimension is read right |
| SkillCompiler.ShapeRoundTrip | skills/codegen/skill_generator.py:832-862 | create_request(s) is made if and only if buildable with its dimensions in the shape; scatter_request accepts it if and only if its names are kept apart and all matrix dimensions are positive; extract_shape then gives s back if and only if every dimension is read right |
| SkillCompiler.ArgsLineUp | skills/codegen/skill_generator.py:664-711 | the response factory's arguments match its parameters in number and order, each reading the dimension its parameter names |
| SkillCompiler.ResponseFits | skills/codegen/skill_generator.py:664-711 | an accepted request gets a response that fits if and only if the response is buildable, its dimensions are the shape's and each of them is read right; one that fits has every size the shape calls for, is accepted by its own scatter if and only if its names are kept apart and its matrices are not empty, and is zero exactly as ZeroedExactly says |
| SkillExamples.GemmIsOk | skills/builtins/blas/DgemmSkill.skill.toml:10-24 | the shipped matrix product satisfies every hypothesis of the theorems above: everything compiles and every dimension is read right |
| SkillExamples.LoopVariableCaptured | skills/codegen/skill_generator.py:605-614 | a well-formed definition with a dimension `i` whose response stays uninitialised |
| SkillExamples.BuilderClashes | skills/codegen/skill_generator.py:541-562 | a well-formed definition with a dimension `builder` whose response factory does not compile |
| SkillExamples.EmptyDoesNotCompile | skills/codegen/skill_generator.py:478-480 | a definition without fields, neither of whose factories compiles |
| SkillExamples.UndeclaredDimension | skills/codegen/skill_generator.py:536-549 | a response sized by a dimension outside the shape, which no call makes |
| SkillExamples.ParameterTypeHidden | skills/codegen/skill_generator.py:538-549 | a dimension called like the type of dimensions, whose response factory does not compile |
| SkillExamples.SwappedReadEachOther | skills/codegen/skill_generator.py:733-739 | two matrices each reached under the other's name: everything compiles, and a dimension of one is read right if and only if the other has the same |

## Left out

- Weak memory order, allocation failure, exceptions from logging, and frames destroyed at process exit.
- Liveness: the theorems say what cannot go wrong and what has happened when a call returns, not that a call returns.
- The response executor, the rendezvous client, the snapshot reporter and the session's dealings with the queue are machines over values, because what is proved of them is about interleavings; update in place within one section is not shown for them.
- DispatchTheorems.EveryTaskInOnePlace: says where a task is, not that a failed task is retried in any bounded time; a task dropped at shutdown stays with no one and its submitter stays suspended.
- DispatchTheorems.SubmitterResumedOnce: a submitter without a response executor is resumed inline by the session; that fallback is not modelled.
- DispatchTheorems.SessionAccounting: counters are unbounded, and round-trip times are not modelled.
- Reaping.SessionManager.Cleanup: one pass with no producer step inside; the pass is atomic and the resumed coroutine runs to its end within it. That no session is queued twice and that a resumed one can only finish are proved of every run (DispatchTheorems.OneWaiterPerSession, DispatchTheorems.LeavingForGood).
- EventLoop.LoopAccounting: one start and no reset; counters are unbounded.
- EventLoop.OperationsConserved: a poll from inside a resumed coroutine, which would share the thread's scratch lists, is not modelled.
- Streams.CoroSocketAdapter.AsyncRead: operations of size 0 are not modelled; the callers skip empty bodies.
- Streams.Socket.Read: error codes other than the end of a connection are folded into it, and time-outs into would-block.
- WorkerLoops.LoopsAgree: response sizes and skill ids fit 32 bits; the pause flag is read before a round chosen by the caller; disconnect requests are ends of the stream.
- LockstepSafety.NoMismatch: the session's two writes are one stream of bytes, as the adapter's contract allows; the path after an exception that is not an I/O error is left out, since it needs an allocation failure.
- Frames.SequenceRoundTrip: JSON bodies are byte strings.
- Tunnel.RoundTripExactly: the address class is not part of this model; an address that has been set counts as true. When the tunnel is used at all, and the rest of the node service, is not modelled.
- CancelRaces.CancelReachesSocket: one exchange at a time, as the client's callers keep it.
- Rendezvous.StaleExactly: a snapshot's clock reading is not earlier than those of requests before it, which holds because it is taken under the lock.
- SkillBuilt.RequestMade: sizes are mathematical integers; C++ conversions, FlatBuffers' own layout and the value of the buffer-size estimate are not modelled, nor are the pointers the factory returns beside its buffer.
- SkillNames.CompilesExactly: syntax and names only. Names are C++ identifiers and no keywords, and element types are the scalar types the generator maps. Type checking is not modelled: conversions, narrowing in braces when a definition mixes matrices and sized vectors, and element types flatc treats specially, such as bool. Nor is the text around the functions: the schema and what flatc makes of it (names that differ only in case, for instance) and the declarations of RequestShape, RequestPtrs and ResponsePtrs.
- SkillCompiler.ShapeRoundTrip: needs the generator's convention that dims are named after their matrix, and dimensions that the request uses; compare functions, test requests, includes and the registration file are not modelled.
- Skill kernels, the worker's control loop, options, logging, the dashboard and packaging have no deep property.
