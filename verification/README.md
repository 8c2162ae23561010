# Verified model of xRPC's concurrency and stream core

xRPC is a C++ RPC framework over io_uring. This project models the logic it adds on top of the
kernel, sockets and Protobuf, and proves what that logic promises over every input and every run.

| module | models | form |
|---|---|---|
| `MpscQueue` | the bounded lock-free queue of worker results | transition system, one step per atomic action |
| `WorkerResultPath` | the queue together with the "drain scheduled" flag and the posted callbacks | transition system over `MpscQueue` |
| `WorkerPool` | admission, the close barrier, the drain and the worker loops | transition system, mutexes and condition variables included |
| `ConnectionIoLoop` | a server connection with its two coroutines, and the loop that owns the connections | classes |
| `ClientProtocol` | failover, the pending-call maps, deadlines, reader threads and sweeps | transition system |
| `HashRing` | canonical endpoint lists, the consistent-hash ring, transports of routing snapshots | methods with loops and lemmas |
| `FrameHeader`, `FrameCodec`, `RpcFrameStream` | the wire format and incremental request decoding | functions, array methods and classes |
| `UringContext` | ownership of I/O operations and the result slots of suspended coroutines in the event loop | classes over an abstract kernel |
| `UringWakeup` | posting, stopping and waking the event loop across threads | transition system |
| `Arith`, `Sums` | residues, walks in a circle, finite sums | lemmas |
| `Common` | optional values and bytes | types |

`dafny verify dfyconfig.toml` checks everything.

Objects used by one thread are classes whose methods change their fields. Code that several threads
run at once is a transition system: a state value, `Enabled` and `Apply` for every atomic action, and
`Exec` for a whole run. There, results quantify over all step lists, so over all interleavings of any
number of threads. Atomic actions are sequentially consistent. Positions, ids and counters that the
source keeps in 64 bits are unbounded.

Coroutines are explicit program counters: parked on the queue, sending a batch at an offset,
receiving, done. `Close` and `EnqueueWrite` resume the write coroutine synchronously, as the source
does, and the invariants hold whenever no handler is running.

Outcomes of connect, send, receive, submission, deadlines and Protobuf are arbitrary. A context refuses to
start I/O only once it was stopped, which another thread may do at any time.

Progress is stated as the existence of a run: from every reachable state, named threads alone can take
steps that lead to the promised end, with a measure that falls at every step.

## Where code and documentation differ

- `TryPush` is documented to fail when the queue is full. It can also fail when the queue was never
  full during the call, because the dequeue position it read may be stale. `MpscQueue.FalseFull` is a run
  that shows it. `MpscQueue.FalseFullExactlyWhen` is the exact condition: such a run exists if and only if
  the queue has at least two slots and at least two producers.
- `RequestStop` is documented to drain callbacks already queued. `UringWakeup.QueuedCallbackLeftBehind` is a
  run in which a queued callback never executes. `UringWakeup.DrainedExactlyWhen` is the exact condition at
  the call: every continuation drains the queue if and only if the queue is empty, a completion of the
  poll is waiting, or the run thread is not past its swap of the queue.
- A response whose error status Protobuf cannot serialize is sent with empty metadata and reads as
  success (`FrameCodec.UnserializableErrorReadsAsSuccess`). `FrameCodec.ReadsAsSuccessExactlyWhen` says exactly
  which responses read as success, and `FrameCodec.SuccessIsPreservedExactlyWhen` which ones keep their verdict.
- After `DrainAndJoin`, the global pending counter is zero only once no submitter is between its
  reservation and its rollback (`WorkerPool.JoinedMeansDrained`). `WorkerPool.PendingAfterJoin` is a run
  that ends joined with a positive counter.

## Model

| member | source | states |
|---|---|---|
| MpscQueue.StepInv | src/include/common/mpsc_queue.h:72-120 | every atomic action of any producer or of the consumer keeps the slot-by-slot invariant: which slots are ready, constructed, reserved or free |
| MpscQueue.RunInv | src/include/common/mpsc_queue.h:72-120 | the invariant holds after every run, whatever the interleaving |
| MpscQueue.RefinesFifo | src/include/common/mpsc_queue.h:72-120 | each action is its step of an abstract bounded FIFO: a won compare-exchange appends that producer's value below capacity, the store of the dequeue position takes the head, and every other action changes nothing |
| MpscQueue.RunIsFifo | src/include/common/mpsc_queue.h:27-27 | in every run the popped values are a prefix of the values in reservation order and at most `capacity` are outstanding |
| MpscQueue.RunKeepsProgramOrder | src/include/common/mpsc_queue.h:27-28 | in every run what was popped of a producer's values is a prefix of the arguments of its successful calls in call order, and all of them once the queue is empty and the producer outside a call |
| MpscQueue.SlotsAreExclusive | src/include/common/mpsc_queue.h:85-88 | a producer constructs only into a free slot that no other producer uses, although its fullness test may be stale; the consumer moves out the value of its own position |
| MpscQueue.PushFinishes | src/include/common/mpsc_queue.h:72-90 | from every reachable state, whatever the others have left unfinished, a producer inside a call returns by its own steps; it returns true, and its value is reserved, exactly as its loads and the room decide |
| MpscQueue.TryPushAnswers | src/include/common/mpsc_queue.h:61-90 | an undisturbed call returns true and appends its value, published, iff there is room; otherwise it returns false and changes nothing |
| MpscQueue.PopFinishes | src/include/common/mpsc_queue.h:103-120 | from every reachable state the consumer inside a call comes to its answer by its own steps, the oldest value iff that is published |
| MpscQueue.TryPopAnswers | src/include/common/mpsc_queue.h:92-120 | an undisturbed call returns the head of the queue iff it is published, and otherwise false |
| MpscQueue.RejectsIff | src/include/common/mpsc_queue.h:74-78 | a push comes to report "full" iff the occupancy at its enqueue load plus the pops completed since its dequeue load reach the capacity; with no such pop, iff the queue is full |
| MpscQueue.FalseFull | src/include/common/mpsc_queue.h:61-78 | a two-slot queue that never holds two values still rejects a push |
| MpscQueue.FalseFullExactlyWhen | src/include/common/mpsc_queue.h:61-78 | for every capacity and set of producers: a run in which a call is rejected although the queue is full at no moment of that call exists iff there are at least two slots and two producers |
| WorkerResultPath.LinkedStep | src/server/connection_io_loop.cpp:190-244 | the queue's calls always match the positions of workers and I/O thread, and its invariant is kept |
| WorkerResultPath.FlagStep | src/server/connection_io_loop.cpp:206-240 | a set flag always means a drain is posted, running before its clear, or about to be posted |
| WorkerResultPath.WatchedStep | src/server/connection_io_loop.cpp:206-240 | a clear flag with a poppable head always means a drain is coming, a re-check can still succeed, or a worker has yet to exchange the flag |
| WorkerResultPath.TokensStep | src/server/connection_io_loop.cpp:190-204 | every posted result is in the queue, in the overflow channel or still with its worker, in one of them only |
| WorkerResultPath.RunInv | src/server/connection_io_loop.cpp:190-244 | all of this holds after every run |
| WorkerResultPath.NoResultStranded | src/server/connection_io_loop.cpp:190-244 | in every run, a poppable head is covered by a posted drain, a drain whose re-check has not failed, or a worker about to post one |
| WorkerResultPath.HandledAtMostOnce | src/server/connection_io_loop.cpp:190-244 | no result is handled twice over both paths, and each worker's queued results are handled in its order |
| WorkerResultPath.QuiescentMeansAllHandled | src/server/connection_io_loop.cpp:212-244 | at rest the queue is empty, the flag clear and every posted result was handled |
| WorkerResultPath.IoIsDeterministic | src/server/connection_io_loop.cpp:212-244 | the I/O thread never has a choice |
| WorkerResultPath.IoThreadFinishes | src/server/connection_io_loop.cpp:212-244 | from any reachable state with quiet workers the I/O thread alone comes to rest, having handled every result exactly once |
| WorkerResultPath.PostFinishes | src/server/connection_io_loop.cpp:190-210 | from every reachable state a worker completes its post by its own steps |
| WorkerResultPath.EverythingIsHandled | src/server/connection_io_loop.cpp:190-244 | from every reachable state, with workers and I/O thread anywhere, the workers complete their posts and the I/O thread then handles every posted result exactly once and comes to rest |
| WorkerResultPath.DrainsAreCoalesced | src/server/connection_io_loop.cpp:206-232 | in every run, between two clears of the flag at most one worker schedules a drain |
| WorkerResultPath.DrainYields | src/server/connection_io_loop.cpp:225-230 | after 256 results in a row a drain goes back behind the waiting callbacks and keeps the flag |
| WorkerPool.LocksStep | src/server/worker_pool.cpp:44-178 | every queue mutex is held by exactly the thread whose position is inside the critical section |
| WorkerPool.BarrierStep | src/server/worker_pool.cpp:79-84 | once a closer has passed a queue, nobody who rechecked that queue earlier has yet to push |
| WorkerPool.PendingStep | src/server/worker_pool.cpp:124-136 | the global counter stays equal to reservations plus queued plus executing jobs, and within its maximum |
| WorkerPool.BooksStep | src/server/worker_pool.cpp:59-75 | each queue holds exactly its admitted, unstarted jobs in order, and both its counters agree with them |
| WorkerPool.WorkerOkStep | src/server/worker_pool.cpp:159-178 | a sleeping worker has no job without a notification coming and no drain without a wakeup coming; a worker exits only when drained |
| WorkerPool.StepInv | src/server/worker_pool.cpp:44-178 | every action keeps the whole invariant |
| WorkerPool.NothingAdmittedAfterClose | src/server/worker_pool.cpp:44-84 | after CloseSubmissions returns to any thread, no continuation admits a job to any queue |
| WorkerPool.CountersConserved | src/server/worker_pool.cpp:52-77 | in every run the global counter equals what it counts and no counter leaves its range, rollbacks included |
| WorkerPool.EveryCallIsAnswered | src/server/worker_pool.cpp:44-77 | in every run a finished submission returned true iff its job is in the log of a queue, exactly once; true only after an open gate, room in the count it read and an open recheck; false only because one of the three failed |
| WorkerPool.SubmitFinishes | src/server/worker_pool.cpp:44-77 | from every reachable state a submission returns, waiting for nobody but threads inside critical sections, with the answer its position and the pool's state determine |
| WorkerPool.TrySubmitAnswers | src/server/worker_pool.cpp:44-77 | an undisturbed submission returns true iff the pool accepts and the whole batch fits, and then exactly this batch is appended to the selected queue |
| WorkerPool.HolderReleases | src/server/worker_pool.cpp:58-84 | whoever holds a queue's mutex can step towards its release |
| WorkerPool.AdmittedJobRuns | src/server/worker_pool.cpp:159-178 | from every reachable state, with or without a drain, every admitted job can be brought to its start by its worker, pending notifications and threads leaving critical sections |
| WorkerPool.CloseFinishes | src/server/worker_pool.cpp:79-84 | CloseSubmissions returns from every reachable state, waiting for nobody but threads inside critical sections |
| WorkerPool.JoinedMeansDrained | src/server/worker_pool.cpp:138-178 | after the joins every admitted job was taken once and in order, queues and their counters are empty, and the global counter is zero iff no rollback is pending |
| WorkerPool.JoinIsNeverStuck | src/server/worker_pool.cpp:138-178 | a join of a worker that has not exited never waits for a sleeping one, and an enabled step of that worker, or of the thread holding the joined queue's mutex, brings the exit strictly nearer |
| WorkerPool.DrainFinishes | src/server/worker_pool.cpp:138-178 | from every reachable state of a drain, workers, mutex holders and the draining thread alone bring it to its end, without any new submission step |
| WorkerPool.PendingAfterJoin | src/server/worker_pool.cpp:124-157 | for every positive maximum, a run of one submitter, one worker and one closer that ends joined with the pending counter above zero |
| WorkerPool.SelectWorkerQueue | src/server/worker_pool.cpp:105-122 | the choice is least loaded, and the first such in round-robin order, despite the early stop at zero |
| ConnectionIoLoop.ServerConnection.Close | src/server/server_connection.cpp:156-171 | closes once, settles the loop's byte total and live count, and finishes a parked writer |
| ConnectionIoLoop.ServerConnection.BeginDrain | src/server/server_connection.cpp:173-183 | leaves Active, closing at once exactly when nothing is in flight and nothing is pending, and drops nothing |
| ConnectionIoLoop.ServerConnection.TryFinishDrain | src/server/server_connection.cpp:347-356 | closes exactly a drained draining connection, so no drain is left stuck |
| ConnectionIoLoop.ServerConnection.EnqueueWrite | src/server/server_connection.cpp:208-233 | accepts iff open and within the limit, appends to the output stream, closes otherwise; while the context runs an accepted write closes nothing but a completed drain |
| ConnectionIoLoop.ServerConnection.TakeWriteBatch | src/server/server_connection.cpp:242-255 | takes a maximal prefix of the queue in order, at most 64 KiB unless a single write is larger |
| ConnectionIoLoop.ServerConnection.WakeWriteLoop | src/server/server_connection.cpp:288-295 | resuming the parked writer reaches a state with the writer parked, sending or done, streams and counts intact |
| ConnectionIoLoop.ServerConnection.ResumeWriteLoop | src/server/server_connection.cpp:257-286 | from its wait on the queue to its next suspension the write loop keeps accounts, streams and the drain condition, and closes only a completed drain while the context runs |
| ConnectionIoLoop.ServerConnection.OnSendComplete | src/server/server_connection.cpp:266-286 | a completion extends the sent bytes by exactly what the kernel took; failure closes; otherwise, while the context runs, the connection closes only when its drain is complete and everything accepted was sent |
| ConnectionIoLoop.ServerConnection.OnReceive | src/server/server_connection.cpp:94-154 | a batch is submitted whole, rejected request by request, or begins the drain, each in exactly its case; the output grows by exactly the rejections; reading goes on while the context runs; end of stream begins the drain, errors close |
| ConnectionIoLoop.ServerConnection.RejectEach | src/server/server_connection.cpp:316-345 | rejections are answered in order; it stops early only by closing, and while the context runs only at one that cannot be encoded or does not fit |
| ConnectionIoLoop.ServerConnection.OnResponsesEncoded | src/server/server_connection.cpp:185-206 | releases exactly the given requests, appends the bytes iff open and within the limit, and closes only a completed drain while the context runs |
| ConnectionIoLoop.ServerConnection.OnResponseEncodeFailure | src/server/server_connection.cpp:198-206 | releases and closes |
| ConnectionIoLoop.ServerConnection.RestMeans | src/server/server_connection.cpp:257-356 | between handlers pending bytes imply an outstanding send, draining implies work in flight, and sent is a prefix of accepted |
| ConnectionIoLoop.ExecuteRequestBatchOnWorker | src/server/server_connection.cpp:26-58 | posts the responses before the first failure as one result and the rest as one failure, which together release exactly the batch |
| ConnectionIoLoop.SubmitConserves | src/server/server_connection.cpp:301-331 | submitting keeps in-flight counts equal to unfinished jobs plus results in transit |
| ConnectionIoLoop.FinishConserves | src/server/server_connection.cpp:26-58 | so does replacing a job by its results, whatever the encodings |
| ConnectionIoLoop.ReleaseConserves | src/server/server_connection.cpp:203-206 | so does a release, which never exceeds what is in flight |
| ConnectionIoLoop.ConnectionIoLoop.OnSendComplete | src/server/server_connection.cpp:266-286 | as for the connection; the loop's totals stay the sums over its connections and other connections are untouched |
| ConnectionIoLoop.ConnectionIoLoop.OnReceive | src/server/server_connection.cpp:94-154 | exactly an accepted batch becomes one job; conservation and totals are kept |
| ConnectionIoLoop.ConnectionIoLoop.FinishJob | src/server/server_connection.cpp:26-58 | a finished job is replaced by exactly the results of its encodings, without losing a request |
| ConnectionIoLoop.ConnectionIoLoop.HandleWorkerResult | src/server/connection_io_loop.cpp:276-287 | if its connection still exists, releases exactly the carried count, appends the response bytes to its output iff it is open and they fit, and closes it on a failed encoding; the underflow assertion cannot fail |
| ConnectionIoLoop.ConnectionIoLoop.StartConnectionOnContext | src/server/connection_io_loop.cpp:136-167 | adds exactly one connection under a new id while running, reading unless the context was stopped, and leaves the others alone |
| ConnectionIoLoop.ConnectionIoLoop.BeginDrainOnContext | src/server/connection_io_loop.cpp:183-188 | every connection leaves Active, closing at once exactly if it owes nothing, and keeps its requests and its output |
| ConnectionIoLoop.ConnectionIoLoop.CloseConnectionsOnContext | src/server/connection_io_loop.cpp:173-181 | afterwards nothing is live and nothing pending |
| ConnectionIoLoop.ConnectionIoLoop.CollectClosedConnections | src/server/connection_io_loop.cpp:169-171 | removes exactly the closed connections both of whose coroutines have ended, and keeps the totals |
| ConnectionIoLoop.ConnectionIoLoop.FinishDrain | src/server/connection_io_loop.cpp:97-105 | the wait ends iff no connection is open, and then nothing is pending |
| ConnectionIoLoop.ConnectionIoLoop.AllClosedMeansNoneLive | src/server/connection_io_loop.cpp:104-104 | the waited-for count is zero iff every connection is closed |
| ConnectionIoLoop.ConnectionIoLoop.DrainToEnd | src/server/connection_io_loop.cpp:97-118 | from any valid loop whose drain has begun, finishing the jobs, delivering the results and completing the sends closes every connection, so the drain finishes with nothing live or pending |
| ConnectionIoLoop.ConnectionIoLoop.CompleteAllSends | src/server/server_connection.cpp:257-286 | with nothing left in the workers, completing the sends of a draining loop closes every connection, and one that was open has then sent everything it accepted unless the context was stopped |
| ConnectionIoLoop.ConnectionIoLoop.Run | src/server/connection_io_loop.cpp:81-287 | over every sequence of completions, worker progress, accepts and shutdown steps the loop stays valid, and once the drain has run no connection is ever Active |
| ClientProtocol.TicketsStep | src/client/tcp_transport.cpp:285-363 | every pending call is in the map, with its one completing thread, completed or withdrawn, and whoever has it is about to complete it |
| ClientProtocol.HistoriesStep | src/client/rpc_client_impl.cpp:165-188 | each call's record of attempts and sends stays consistent with its position |
| ClientProtocol.NoOrphansStep | src/client/tcp_transport.cpp:226-283 | a registered call that read a descriptor is on the open connection or a sweep of its map is coming, even when an old reader closes a newer connection |
| ClientProtocol.WriteLockedStep | src/client/tcp_transport.cpp:365-397 | the write mutex is held by exactly the call between taking and releasing it, so it is never left locked |
| ClientProtocol.StepInv | src/client/tcp_transport.cpp:141-397 | every step of any caller or reader keeps the whole invariant |
| ClientProtocol.RunInv | src/client/tcp_transport.cpp:141-397 | the invariant holds after every run |
| ClientProtocol.CompletedAtMostOnce | src/client/tcp_transport.cpp:285-337 | in every run a pending call gets at most one result, a failure or the response to its own request, and no map exceeds the in-flight limit |
| ClientProtocol.StoredIsFinal | src/client/tcp_transport.cpp:300-337 | a stored result is never taken back or replaced |
| ClientProtocol.DeadlineIsFinal | src/client/tcp_transport.cpp:339-363 | after DeadlineExceeded from the wait, in every continuation nothing completes that call, no map holds it and no thread is about to complete it |
| ClientProtocol.SentAtMostOnce | src/client/rpc_client_impl.cpp:165-188 | in every run a call invokes send in at most one attempt, the last; it did so iff its outcome is not "not sent"; a response is the caller's own; giving up unsent means every endpoint was tried; a call without a deadline never reports one |
| ClientProtocol.AttemptsVisitDistinctEndpoints | src/client/rpc_client_impl.cpp:165-188 | in every run the attempts of a call go to different positions of its snapshot, from its start position on each the cyclic successor of the one before, and the current attempt uses the transport at the last of them |
| ClientProtocol.FramesDoNotInterleave | src/client/tcp_transport.cpp:365-397 | at most one call at a time writes to a transport's connection |
| ClientProtocol.FinalWaitIsServed | src/client/tcp_transport.cpp:353-362 | the second wait of the deadline path always has a result or an owner one enabled step away from storing it: the response if a reader has decoded it, otherwise the failure of a sweep |
| ClientProtocol.LostConnectionCompletes | src/client/tcp_transport.cpp:267-337 | a waiter whose connection is gone is completed by at most two enabled steps of other threads |
| ClientProtocol.RefusalsHaveReasons | src/client/tcp_transport.cpp:141-172 | a call is turned away only by a map that is exactly full, by the lack of a connection or by a deadline it has |
| ClientProtocol.DecodedResponseIsStored | src/client/tcp_transport.cpp:300-317 | a decoded response to a registered request is removed from the map and becomes the one stored result of exactly that request; nothing else changes |
| ClientProtocol.StrayResponseIsDropped | src/client/tcp_transport.cpp:300-308 | a response nobody waits for changes nothing |
| ClientProtocol.ResponseReachesCaller | src/client/tcp_transport.cpp:248-317 | the response to a waiting call ends it with exactly this response |
| ClientProtocol.CallSucceeds | src/client/tcp_transport.cpp:141-172 | whatever else is going on, a call that meets no obstacle is brought to its own response by its steps, its reader's and one response, from every position on its way |
| ClientProtocol.HolderUnlocks | src/client/tcp_transport.cpp:365-397 | the write mutex is released by the steps of its holder alone, from every reachable state |
| ClientProtocol.ResultComes | src/client/tcp_transport.cpp:226-363 | a waiting call gets a result by steps of other threads, even without a deadline, from every reachable state |
| ClientProtocol.CallFinishes | src/client/rpc_client_impl.cpp:165-188 | from every reachable state every call can be brought to its end, whatever the other calls and the readers are doing |
| HashRing.Sort | src/naming/service_discovery.cpp:36-41 | an ordered permutation |
| HashRing.CanonicalizeEndpoints | src/naming/service_discovery.cpp:35-47 | strictly ordered, with exactly the reported members |
| HashRing.CanonicalIsUnique | src/naming/service_discovery.cpp:35-47 | equal memberships have equal canonical lists |
| HashRing.BuildHashRing | src/client/rpc_client_impl.cpp:208-227 | the ring is the sorted permutation of 128 entries per endpoint |
| HashRing.LowerBound | src/client/rpc_client_impl.cpp:235-236 | splits the ring at the first hash not below the key |
| HashRing.SelectStickyStart | src/client/rpc_client_impl.cpp:229-238 | the chosen endpoint owns the key: no virtual node of any member comes before its node clockwise, ties broken by endpoint order |
| HashRing.OwnerIsUnique | src/client/rpc_client_impl.cpp:229-238 | a membership and a key determine the owner, collisions included |
| HashRing.NamesAreDistinct | src/client/rpc_client_impl.cpp:204-216 | different pairs of endpoint and virtual node are hashed under different names, whatever characters the hosts contain |
| HashRing.NameOfANode | src/client/rpc_client_impl.cpp:204-216 | the name is host, colon, port, number sign, virtual node, at one instance |
| HashRing.OwnsItsNodesExactlyWhen | src/client/rpc_client_impl.cpp:208-238 | for any hash a member owns the hash of its virtual node iff no smaller member has a node with the same hash |
| HashRing.EveryMemberOwnsKeys | src/client/rpc_client_impl.cpp:208-238 | with a hash that tells all names apart every member owns keys, those of all its virtual nodes |
| HashRing.KeysMoveOnlyWithMembers | src/client/rpc_client_impl.cpp:208-238 | under any membership change and any hash, a key moves only to an endpoint that joined or from one that left |
| HashRing.JoiningTakesLeavingGives | src/client/rpc_client_impl.cpp:208-238 | when endpoints only join, a key stays or goes to a new one; read backwards, for leaving |
| HashRing.FindReusableTransport | src/client/rpc_client_impl.cpp:190-202 | finds the transport of the endpoint iff the snapshot has it |
| HashRing.Rebuild | src/client/rpc_client_impl.cpp:139-162 | a rebuilt snapshot shares a transport with the old one exactly for the endpoints they share, and otherwise uses new, distinct ones |
| HashRing.StickyKeyKeepsItsTransport | src/client/rpc_client_impl.cpp:139-163 | a sticky key whose endpoint stays and is not superseded keeps its connection |
| FrameHeader.WireIsBigEndian64 | src/protocol/frame_header.cpp:14-25 | for every id and either host order, converting and swapping the halves puts the big-endian bytes on the wire |
| FrameHeader.HostReadsBigEndian64 | src/protocol/frame_header.cpp:25-25 | the same conversion reads them back |
| FrameHeader.EncodeTo | src/protocol/frame_header.cpp:31-46 | writes the 24-byte big-endian layout on any host and nothing beyond |
| FrameHeader.DecodeInverts | src/protocol/frame_header.cpp:48-81 | decoding undoes encoding between any two hosts, and a foreign magic number is refused |
| FrameHeader.EncodeInverts | src/protocol/frame_header.cpp:48-81 | only the encoding of a header decodes to it |
| FrameCodec.MakeProtocolLimits | src/protocol/frame_codec.cpp:222-235 | accepts exactly positive 32-bit payload limits |
| FrameCodec.BuildFrame | src/protocol/frame_codec.cpp:38-77 | a frame is built iff both sections fit, as prefix, metadata and payload in one buffer |
| FrameCodec.EncodeRequest | src/protocol/frame_codec.cpp:79-96 | succeeds iff the metadata serializes and everything fits |
| FrameCodec.EncodeResponse | src/protocol/frame_codec.cpp:98-124 | succeeds iff everything fits; success without text has no metadata |
| FrameCodec.ReadFrameInverts | src/protocol/frame_codec.cpp:184-218 | a built frame is read back whole whatever follows it, and the 32-bit casts lost nothing |
| FrameCodec.PrefixNeedsMore | src/protocol/frame_codec.cpp:184-218 | every strict prefix of a built frame asks for more and consumes nothing |
| FrameCodec.VerdictIsStable | src/protocol/frame_codec.cpp:184-275 | a decision other than "need more data" does not change when bytes arrive |
| FrameCodec.VerdictOfBytes | src/protocol/frame_codec.cpp:184-209 | each verdict on at least 24 bytes, stated exactly on the raw bytes: wrong magic, wrong version, sizes over the limits, missing bytes and unknown message type, in this order |
| FrameCodec.DecodeConsumes | src/protocol/frame_codec.cpp:247-275 | bytes are consumed exactly when a complete frame is established; success carries exactly one envelope; waiting is bounded by the limits |
| FrameCodec.RequestRoundTrip | src/protocol/frame_codec.cpp:79-141 | an encoded request decodes to itself iff its names are UTF-8 and its metadata fits Protobuf, and otherwise is consumed as undecodable |
| FrameCodec.ResponseRoundTrip | src/protocol/frame_codec.cpp:98-177 | every encodable response, whatever follows it: it decodes to itself up to its status if that was serialized and is readable, to success if it was not serialized, and is consumed as undecodable otherwise |
| FrameCodec.StatusSurvives | src/protocol/frame_codec.cpp:143-161 | a status survives iff it is one of the nine error codes or success without text, and never changes between success and failure |
| FrameCodec.AnyWireCode | src/protocol/frame_codec.cpp:143-161 | of any integer on the wire only the lowest byte counts; success loses its text, the nine error codes keep theirs, everything else is data loss |
| FrameCodec.UnserializableErrorReadsAsSuccess | src/protocol/frame_codec.cpp:98-112 | a status that cannot be serialized is read as success, whatever follows |
| FrameCodec.ReadsAsSuccessExactlyWhen | src/protocol/frame_codec.cpp:98-177 | a response reads as success iff it is success without text, its status could not be serialized, or it is success with a readable text |
| FrameCodec.SuccessIsPreservedExactlyWhen | src/protocol/frame_codec.cpp:98-177 | a response is read with its own success or failure iff its serialized status is readable or, when nothing was serialized, it was a success |
| RpcFrameStream.ByteBuffer.Append | src/server/rpc_frame_stream.cpp:19-31 | appends to the readable bytes whatever the capacity does |
| RpcFrameStream.ByteBuffer.Compact | src/server/rpc_frame_stream.cpp:55-68 | keeps the readable bytes |
| RpcFrameStream.ByteBuffer.Consume | src/server/rpc_frame_stream.cpp:40-49 | drops exactly the consumed bytes |
| RpcFrameStream.RequestEnvelopeBatch.Push | src/server/rpc_frame_stream.cpp:70-76 | appends to the batch |
| RpcFrameStream.RequestEnvelopeBatch.At | src/server/rpc_frame_stream.cpp:82-90 | indexes the batch in decode order |
| RpcFrameStream.RequestEnvelopeBatch.ConsumeEach | src/include/server/rpc_frame_stream.h:42-55 | hands requests over in order up to and including the first refused one, and reports whether all were accepted |
| RpcFrameStream.RpcFrameStream.DecodeAvailableRequests | src/server/rpc_frame_stream.cpp:104-127 | the loop computes the recursive meaning of the unread bytes and never consumes beyond them |
| RpcFrameStream.RpcFrameStream.FeedBytes | src/server/rpc_frame_stream.cpp:94-102 | an open stream gives what its unread and new bytes mean; a closed one gives nothing |
| RpcFrameStream.FeedEach | src/server/server_connection.cpp:94-124 | feeding chunk after chunk computes the fold of that meaning |
| RpcFrameStream.ParseContinues | src/server/rpc_frame_stream.cpp:104-127 | what one piece settles stays, and its rest is continued by the next piece |
| RpcFrameStream.RestIsBounded | src/server/rpc_frame_stream.cpp:104-127 | an open stream holds back less than one maximal frame |
| RpcFrameStream.ChunkingDoesNotMatter | src/include/server/rpc_frame_stream.h:73-82 | any two ways to cut the same bytes give the same requests, the same closing and the same rest |
| RpcFrameStream.RequestsArrive | src/server/rpc_frame_stream.cpp:94-127 | requests encoded in sequence and cut anywhere arrive exactly, in order, with nothing left |
| RpcFrameStream.BadFrameCloses | src/server/rpc_frame_stream.cpp:104-127 | a bad frame or a response behind valid requests closes the stream after exactly those requests, however the bytes are cut |
| UringContext.UringContext.TakeOperation | src/io/uring/context.cpp:299-314 | removes exactly the operation, and every remaining one still knows its place |
| UringContext.UringContext.StageOperation | src/io/uring/context.cpp:291-297 | takes ownership at the end and stages the entry |
| UringContext.UringContext.SubmitStagedSqes | src/io/uring/context.cpp:316-337 | partial submissions are repeated until the kernel holds everything owned; it never takes more than is staged, and only a submission without progress ends the process |
| UringContext.UringContext.AcquireSqe | src/io/uring/context.cpp:275-289 | after submitting there is always room, so the failure path is not reached |
| UringContext.UringContext.TryStartOperation | src/io/uring/context.cpp:339-387 | starts and owns the operation unless a stop was seen, which leaves ownership alone |
| UringContext.UringContext.AwaitSuspend | src/io/uring/context.cpp:232-260 | a started operation is owned and its coroutine waits with an empty slot; a refused start leaves ownership alone and a final cancelled result in the slot |
| UringContext.UringAwaitable.AwaitResume | src/io/uring/context.cpp:262-268 | takes the result out of the slot |
| UringContext.UringContext.ProcessAwaitableCqe | src/io/uring/context.cpp:425-478 | resumes the one waiting coroutine with exactly this result, which is its first final one; a final completion leaves the awaitable with nothing pending, and after any other the coroutine waits again |
| UringContext.UringContext.CancelFd | src/io/uring/context.cpp:531-550 | adds one owned cancellation that has reached the kernel on return |
| UringContext.UringContext.ProcessWakeupCqe | src/io/uring/context.cpp:489-524 | there is one poll until the stop was seen; after that its cancellation is submitted once |
| UringContext.UringContext.ProcessCqe | src/io/uring/context.cpp:394-423 | a completion is always for an owned operation, whose ownership ends exactly with the final one, also when resumed code starts and cancels I/O; a coroutine receives exactly this completion's result, and every other one keeps waiting; exactly which completions end the process |
| UringContext.UringContext.Outstanding | src/io/uring/context.cpp:680-687 | the loop never waits with nothing outstanding |
| UringContext.UringContext.Run | src/io/uring/context.cpp:671-704 | never waits with staged entries, and exits only after a stop with nothing owned, staged or held by the kernel |
| UringWakeup.StepInv | src/io/uring/context.cpp:496-598 | every step keeps the wakeup invariant |
| UringWakeup.CallbacksRunInOrder | src/io/uring/context.cpp:557-598 | in every run callbacks execute in acceptance order, at most once; a queued callback or a stop request always has a wakeup on its way |
| UringWakeup.PostsAreAccepted | src/io/uring/context.cpp:557-583 | over any run, exactly the callbacks posted before the first stop request are accepted, whatever was queued |
| UringWakeup.ExecutesWhatWasPosted | src/io/uring/context.cpp:557-598 | in every run what has been executed is a prefix of the callbacks posted before the stop request |
| UringWakeup.StopOnce | src/io/uring/context.cpp:573-584 | only the first stop request has an effect |
| UringWakeup.AcceptedCallbacksRun | src/io/uring/context.cpp:496-598 | without a stop request, the run thread and pending signals alone execute everything accepted |
| UringWakeup.DrainedExactlyWhen | src/io/uring/context.cpp:496-598 | at a stop request in any reachable state: every continuation that ends has executed everything accepted iff the queue is empty, a poll completion is waiting, or the run thread is not between its swap of the queue and its check of the stop; the run can always end |
| UringWakeup.StopFinishes | src/io/uring/context.cpp:496-524 | after a stop request the run thread and pending signals alone end the run, leaving exactly the queue where it cannot be drained |
| UringWakeup.QueuedCallbackLeftBehind | src/include/io/uring/context.h:137-143 | a run in which a callback queued before the stop request is never executed |

## Left out

- C++ memory orders: all atomic actions are sequentially consistent, so reorderings that weaker orders allow are not covered.
- 64-bit wrap-around of queue positions, request ids, connection ids and the eventfd counter: these are unbounded.
- Exceptions and `bad_alloc`, thread creation, and joins as blocking steps in the client: threads proceed without waiting for a join, which only adds runs.
- Update in place of concurrent objects: the queue, the worker pool, the client transport and the wakeup state are values, because several threads change them between each other's steps.
- HashRing.CanonicalizeEndpoints: works on a sequence value, not in place on the vector; the sorting algorithm is an insertion sort standing for the library's.
- Fnv1a64: the hash is a parameter, and nothing is assumed of it.
- UringContext.UringContext.Run: covers a given number of turns; retries after EINTR are merged, and an error reported by the kernel ends the process as in the source.
- UringContext.UringContext.ProcessCqe: resumed code is an arbitrary list of starts and cancellations of new I/O; of a result only descriptor, value and finality are kept, not the provided buffer.
- WorkerResultPath.NoResultStranded: posts are never refused, so the results of that module cover runs before the loop's context is stopped; afterwards `Post` drops callbacks (src/io/uring/context.cpp:561).
- ConnectionIoLoop.ConnectionIoLoop.FinishDrain: is one look at the waited-for condition; the stop request to the context and the join of its thread, which follow, are not part of it.
- ConnectionIoLoop.ServerConnection.OnReceive: takes the decoded feed as an input; that feed is what RpcFrameStream describes.
- ResolveRoutingSnapshot: only the rebuilding is modelled, not the lock-free publication by pointer identity.
- Protobuf wire encoding: generated code; ProtobufLaws states what is used of it.
- Sockets, timeouts in wall-clock time, Consul discovery, static target parsing, the service registry, server and client configuration, statistics and the provided-buffer pool: single-branch or foreign code that would add only easy members.
