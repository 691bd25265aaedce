# Arras core: a verified model

Arras is a distributed messaging runtime: computations exchange messages through a dispatcher, a
routing table and a framed, chunked wire format, and a process manager runs them as child processes.
This project models the parts of it whose correctness depends on several functions or threads
together, and proves what those parts are for. `dafny verify dfyconfig.toml` checks everything.

| file | what it models |
|---|---|
| `ThreadsafeQueue.dfy` | the blocking queue with two condition variables, as a state machine |
| `Dispatcher.dfy`, `DispatcherSafety.dfy`, `DispatcherLiveness.dfy`, `DispatcherDelivery.dfy`, `DispatcherHistory.dfy` | message dispatcher, control endpoint and `runComputation` as one state machine; what every run keeps; when shutdown comes to an end; that messages do get through; why things happen |
| `Fairness.dfy` | weak fairness and the rule used for what must happen on fair runs |
| `Routing.dfy` | computation map, the filter-compiling addressing constructor, addresser |
| `Bytes.dfy`, `Envelopes.dfy` | bytes, words, identifiers; metadata and contents |
| `Buffers.dfy` | `Buffer` and the growing `MultiBuffer` |
| `Chunking.dfy`, `Unchunking.dfy`, `ChunkRoundTrip.dfy` | splitting, reassembly, and that they are inverse under any interleaving |
| `Framing.dfy`, `FrameReceiving.dfy`, `FrameTransport.dfy` | frames over a socket with short writes and reads: sending, receiving, both |
| `EnvelopeCodec.dfy`, `ChunkCodec.dfy`, `MessageIO.dfy`, `WireFormat.dfy` | the header and chunk formats; the reader and writer objects; the formats byte by byte |
| `WireStack.dfy`, `EndToEnd.dfy` | all wire layers together, as functions and as objects |
| `MemoryTracking.dfy`, `Processes.dfy` | memory counters; controller, termination threads, reaper and children as a state machine |
| `ProcessSafety.dfy`, `ProcessReset.dfy`, `ProcessMemory.dfy`, `ProcessLiveness.dfy`, `ProcessStages.dfy` | what every run of it keeps; what depends on how processes given up are reset; what becomes of the memory; what is bound to happen; how processes end |
| `CpuAffinity.dfy` | cpu list parser and printer, `enableAffinity` |
| `CaptureQueue.dfy`, `CaptureShutdown.dfy` | the two threads that capture standard output, and that they come to an end |
| `RollingWindow.dfy` | the performance monitor's 12-slot ring |

Concurrent parts are state machines: a region that holds a mutex is one step, wait sets and
notifications that are still owed are part of the state, and theorems are about every run.
Sequential parts are classes and methods with the original's loops, each proved against a function
whose properties are lemmas. Integers have the original's width where that can be observed.

Some promises do not hold as they stand. In each such case the model does what the code does, a lemma
shows a failing run or input, and another says exactly when the promise holds:

- The queue can lose a wake-up (`LateTimeoutLosesWakeup`) if a thread that was notified reports a
  timeout, which the C++ standard allows, and a second thread is waiting (`NoLostWakeupIff`). The
  dispatcher's queues have one popper.
- A message with an empty body that chunking applies to is cut into no chunks and never arrives
  (`EmptyNeverArrives`). That takes a minimum chunking size of 0, which neither
  `CompEnvironmentImpl.cc:191` nor `Client.cc:435` sets; a hand-built configuration can.
- A chunked message of a class that the receiver has not registered is thrown over with its last chunk,
  and its chunks are never freed (`UnregisteredStays`, `CollectorStays`); the same message in one piece
  arrives. When exactly messages arrive is stated by `SplitArrivesIff`, `DeliveredIff` and
  `RoundTripIff`.
- A quit posted before the dispatcher was started leaves it Exiting for good (`QuitTooEarly`,
  `ExitedIff`).
- With a chunk size of 0, which also takes a hand-built configuration, a non-empty body keeps the sender
  writing forever (`NeverWritten`, `WriteWithoutEnd`).
- A chunk whose index is not below its count makes the receiver leave its vector of slots, unless the
  count is wrong too (`OneTooHigh`, `OutOfRangeIff`).
- Reading more from a `MultiBuffer` than is unread returns what a reset left behind, or leaves the
  vector (`MultiBuffer.Read`, `LeftOversAreRead`), and skipping passes over nothing
  (`MultiBuffer.Skip`).
- Names of computations are found again by their ids, and ids by their names, only if later entries do
  not take over the id or the name (`SharedId`, `FalseClient`, `NamesRoundTripIff`, `IdsRoundTripIff`).
- A frame of length 0 is taken for a timeout (`EmptyIsLost`, `FramesRoundTripIff`).
- The length of a routing name is cut to 16 bits without an error (`HeadRoundTripIff`, `LongNames`).
- Forwarding rewrites the header of a frame that uses extensions, another minor version or unknown flags
  (`ExtensionIsDropped`, `RewriteIff`).
- Reserving memory goes wrong when a sum exceeds 32 bits (`OverflowGrants`, `ReserveIff`); the
  configurations in which that can happen are those of `CoveredIff` (`OverflowHappens`).
- Resetting a process that was given up as uninterruptable before the exit of its child has been handled
  leaks its reservation (`ResetStuckLeaks`, `ConservedIff`). The exit of its old child is then recorded
  on its new life (`WrongExit`, `RecordsOwnIff`). It can also come in while the new child is being
  entered into the table: spawn holds the process and waits for the table, the reaper holds the table
  and waits for the process, and neither goes on (`LocksCross`, `NoDeadlockIff`), so that exits are no
  longer handled (`StuckForever`, `AllHandledIff`).
- The number of hyperthread cpus is a 32-bit product and may wrap (`ThreadsWrap`), and with 0 threads
  per core there are more cpus than cores times threads (`NoThreads`, `AffinitySize`).
- A closing line without its newline stops the log thread but not the pipe thread; the capture queue can
  then exceed its bound, and the pipe thread can wait forever (`OrphansOverflow`, `SafeIff`). Such a
  line comes from a NUL before the newline, which ends the string early; a line that is cut for its
  length has 4095 characters and is not a closing line.

Where code and comments disagree the model follows the code: the protocol version word is 0x0400, not
the 0x0302 of the format comment, and a frame may have up to 2^32 - 1 bytes, not about 2 GB.

## Model

| member | source | states |
|---|---|---|
| `ThreadsafeQueue.StepKeepsInv` | arras4_core_impl/lib/shared_impl/ThreadsafeQueue_impl.h:13-82 | every step of every thread (push, the notify after unlocking, pop, barging, spurious wakes, timeouts, drain waits, both notifications of shutdown) keeps: queued items are matched by wake-ups under way, and after shutdown any sleeper has a notify_all coming |
| `ThreadsafeQueue.RunKeepsInv` | arras4_core_impl/lib/shared_impl/ThreadsafeQueue_impl.h:13-82 | the same in the last state of every run |
| `ThreadsafeQueue.LateTimeoutLosesWakeup` | arras4_core_impl/lib/shared_impl/ThreadsafeQueue_impl.h:33-44 | a run with two poppers in which a notified popper reports timeout and an item stays queued with a sleeper and nobody on the way |
| `ThreadsafeQueue.NoLostWakeupIff` | arras4_core_impl/lib/shared_impl/ThreadsafeQueue_impl.h:13-82 | no run loses a wake-up if and only if notified threads never report timeout or at most one thread ever pops |
| `ThreadsafeQueue.FifoOnEveryRun` | arras4_core_impl/lib/shared_impl/ThreadsafeQueue_impl.h:13-50 | on every run, what was popped followed by what is queued is what was pushed |
| `ThreadsafeQueue.NothingAfterShutdown` | arras4_core_impl/lib/shared_impl/ThreadsafeQueue_impl.h:13-50 | over any run nothing goes in or comes out of the queue once it is shut |
| `ThreadsafeQueue.HowPopEnds` | arras4_core_impl/lib/shared_impl/ThreadsafeQueue_impl.h:24-50 | a call of pop ends with the front item, with the exception for a shutdown, or, if it is timed, with a timeout |
| `ThreadsafeQueue.TakenByPop` | arras4_core_impl/lib/shared_impl/ThreadsafeQueue_impl.h:24-50 | an item is only ever handed to a call of pop, which is through with that |
| `ThreadsafeQueue.HowDrainEnds` | arras4_core_impl/lib/shared_impl/ThreadsafeQueue_impl.h:52-74 | waitUntilEmpty comes back, but for a timeout or a shutdown, only when the queue is empty |
| `ThreadsafeQueue.PushAddsIff` | arras4_core_impl/lib/shared_impl/ThreadsafeQueue_impl.h:13-22 | push adds its item at the end and owes a notification exactly if the queue is open |
| `DispatcherSafety.StepKeepsInv` | arras4_core_impl/lib/shared_impl/MessageDispatcher.cc:31-221 | every step of the master, incoming, outgoing, handler and computation threads and of the environment keeps the invariant behind the theorems below |
| `DispatcherSafety.RunKeepsInv` | arras4_core_impl/lib/shared_impl/MessageDispatcher.cc:31-221 | the invariant on every run |
| `DispatcherSafety.PhaseOnlyMovesForward` | arras4_core_impl/lib/shared_impl/MessageDispatcher.cc:120-221 | over any run the state never goes back, so postError cannot pull it back from Exited |
| `DispatcherSafety.ExitReasonOnEveryRun` | arras4_core_impl/lib/shared_impl/MessageDispatcher.cc:150-221 | Exited means all workers are joined, and the reason, also the one observed, is the last error posted, or Quit without any |
| `DispatcherHistory.ExitReasonIff` | arras4_core_impl/lib/shared_impl/MessageDispatcher.cc:50-118 | on every run each callback that threw and each failure to receive or send is posted once, or about to be, and nothing else is; a dispatcher has exited with Quit exactly if none of these ever happened, and otherwise for one that did |
| `DispatcherHistory.EndsIff` | arras4_core_impl/lib/shared_impl/MessageDispatcher.cc:50-221 | it ends, or is about to, exactly if there was such a fault, a stop or abort, a start that threw, or a postQuit |
| `DispatcherHistory.ObeysOnEveryRun` | arras4_core_impl/lib/computation_impl/CompEnvironmentImpl.cc:202-352 | go, stop and abort each let the computation begin and nothing else does, stop and abort end it, other control messages do neither; only a computation asked to waits for go, and it has said that it is ready |
| `DispatcherHistory.OutcomeOnEveryRun` | arras4_core_impl/lib/computation_impl/CompEnvironmentImpl.cc:202-352 | what runComputation returns says whether start threw, or stop did, or else why the dispatcher exited |
| `DispatcherHistory.CallsOnEveryRun` | arras4_core_impl/lib/shared_impl/MessageDispatcher.cc:95-118 | the computation has been given each message handled, in order, and told once of each wait that expired |
| `DispatcherHistory.MayHappen` | arras4_core_impl/lib/shared_impl/MessageDispatcher.cc:31-221 | the runs leave out nothing that callbacks, connections, timers, sleepers and other threads can do |
| `DispatcherSafety.DeliveryOnEveryRun` | arras4_core_impl/lib/shared_impl/MessageDispatcher.cc:31-118 | handled messages are a prefix of the source sequence without control messages, written envelopes a prefix of the accepted ones, nothing is lost before shutdown, and both counters agree with the histories |
| `DispatcherSafety.NoLostWakeupOnEveryRun` | arras4_core_impl/lib/shared_impl/MessageDispatcher.cc:120-143 | once Exiting, the master is not asleep; sleeping workers and the thread waiting for go have a notification under way whenever they have something to wake up for |
| `DispatcherSafety.LifecycleOnEveryRun` | arras4_core_impl/lib/computation_impl/CompEnvironmentImpl.cc:202-352 | the computation sees start, then onMessage and onIdle calls, then stop; nothing but start if start threw; nothing before go |
| `DispatcherLiveness.HelpfulCanRun` | arras4_core_impl/lib/shared_impl/MessageDispatcher.cc:145-163 | while shutting down, the thread whose turn it is can take a step |
| `DispatcherLiveness.StepProgress` | arras4_core_impl/lib/shared_impl/MessageDispatcher.cc:145-163 | while shutting down, no step increases the work left and a step of the thread whose turn it is decreases it |
| `DispatcherLiveness.ShutdownTerminates` | arras4_core_impl/lib/shared_impl/MessageDispatcher.cc:120-164 | on every weakly fair infinite run, with a master running, Exiting leads to Exited with all workers joined and the reason settled |
| `DispatcherLiveness.QuitTooEarly` | arras4_core_impl/lib/shared_impl/MessageDispatcher.cc:169-221 | a fair infinite run on which postQuit comes before startQueueing, which is then refused, and Exited is never reached |
| `DispatcherLiveness.ExitedIff` | arras4_core_impl/lib/shared_impl/MessageDispatcher.cc:120-164 | on a weakly fair run, Exiting leads to Exited if and only if the master is running |
| `DispatcherDelivery.AllWritten` | arras4_core_impl/lib/shared_impl/MessageDispatcher.cc:70-94 | on a fair run without a shutdown, every envelope that send accepted is eventually written, in order |
| `DispatcherDelivery.AllHandled` | arras4_core_impl/lib/shared_impl/MessageDispatcher.cc:50-118 | on a fair run without a shutdown, every message received is eventually handled, in order |
| `DispatcherDelivery.ListensAgain` | arras4_core_impl/lib/shared_impl/MessageDispatcher.cc:50-68 | and it waits for the next envelope again and again |
| `Routing.NamesAreLinked` | arras4_core_impl/lib/routing/ComputationMap.cc:18-41 | the three maps agree: names lead to ids that have an address, ids lead to names that exist, addresses carry their id and the session, and the client is in all three whatever was configured |
| `Routing.NamesRoundTripIff` | arras4_core_impl/lib/routing/ComputationMap.cc:18-41 | whatever is configured, name to id to name is the identity on all names if and only if no name's last entry has its id used by a later one, the client's entry coming last |
| `Routing.SharedId` | arras4_core_impl/lib/routing/ComputationMap.cc:22-26 | two entries with one id: the first name is not found by it |
| `Routing.IdsRoundTripIff` | arras4_core_impl/lib/routing/ComputationMap.cc:18-41 | and id to name to id is the identity if and only if no id's last entry has its name used by a later one |
| `Routing.FalseClient` | arras4_core_impl/lib/routing/ComputationMap.cc:35-41 | a computation named like the client: its id leads to the client |
| `Routing.ResolvesTo` | arras4_core_impl/lib/routing/ComputationMap.cc:22-41 | a name leads to the session, the node of the last entry with its id, and that id |
| `Routing.UnknownName` | arras4_core_impl/lib/routing/ComputationMap.cc:58-69 | a name that was not configured is a KeyError |
| `Routing.LessIff` | arras4_core_impl/lib/routing/ComputationMap.cc:80-88 | the order of ids is decided by the first byte in which they differ |
| `Routing.ComputationMap.GetAllAddresses` | arras4_core_impl/lib/routing/ComputationMap.cc:80-88 | every address, with or without the client's, each once and in the byte order of the ids |
| `Routing.AddAccepts` | arras4_core_impl/lib/routing/Addressing.cc:65-77 | one copy per string entry for the names accepted, nothing else changes |
| `Routing.CollectIgnores` | arras4_core_impl/lib/routing/Addressing.cc:85-94 | exactly the string entries |
| `Routing.AddToMapped` | arras4_core_impl/lib/routing/Addressing.cc:104-112 | mapped names that are not ignored get the destination; the ignored names that are not mapped are left over |
| `Routing.MapIgnored` | arras4_core_impl/lib/routing/Addressing.cc:118-121 | new entries leave every lookup as it was |
| `Routing.AddDestination` | arras4_core_impl/lib/routing/Addressing.cc:54-126 | one pass of the loop appends to the answer for every name, mapped or not, exactly this destination's share |
| `Routing.WantedIff` | arras4_core_impl/lib/routing/Addressing.cc:54-126 | who gets a message of a name: each destination that accepts it by name or, accepting nothing by name, does not ignore it |
| `Routing.Compile` | arras4_core_impl/lib/routing/Addressing.cc:49-141 | for every name the table answers what asking each destination in turn would, and it fails exactly if a destination is unknown |
| `Routing.ResolveAllIff` | arras4_core_impl/lib/routing/Addressing.cc:54-58 | the filters resolve if and only if every destination name is known |
| `Routing.BuildAddressing` | arras4_core_impl/lib/routing/Addressing.cc:23-127 | the whole constructor: the table answers by the filters configured under the source's own name, and with nobody if there are none; the list of all addresses; an unknown source leaves everything else empty |
| `Routing.Addresser.Update` | arras4_core_impl/lib/routing/Addresser.cc:24-33 | the new table, which answers by the source's own filters, and the list of all addresses are swapped in whole, or the old ones stay |
| `Routing.Addresser.AddressEnvelope` | arras4_core_impl/lib/routing/Addresser.cc:39-45 | source address, and what the table answers for the name, which are the destinations that want it |
| `Buffers.Buffer.Write` | arras4_network/lib/network/Buffer.h:80-86 | appends what fits and leaves everything else alone |
| `Buffers.Buffer.Read` | arras4_network/lib/network/Buffer.h:88-94 | the next bytes, at most what is unread |
| `Buffers.MultiBuffer.UseNextBuffer` | arras4_network/lib/network/MultiBuffer.cc:135-154 | a fresh or emptied buffer of the right size comes into use; contents stay |
| `Buffers.MultiBuffer.WriteSome` | arras4_network/lib/network/MultiBuffer.cc:105-120 | one turn of the loop uses up exactly the room it writes into; it writes something or brings an existing buffer into use if there is room for a byte or new buffers have some |
| `Buffers.MultiBuffer.Write` | arras4_network/lib/network/MultiBuffer.cc:101-123 | appends all of it, and terminates, whenever there is room for it or new buffers have some; with one buffer size all buffers but the last stay full |
| `Buffers.MultiBuffer.WriteWithoutEnd` | arras4_network/lib/network/MultiBuffer.cc:105-120 | otherwise some of it is left after any number of turns |
| `Buffers.MultiBuffer.Read` | arras4_network/lib/network/MultiBuffer.cc:49-68 | for every n: the next n unread bytes if there are so many; otherwise also what the buffer behind the used ones still holds, or an access outside the vector if there is none |
| `Buffers.LeftOversAreRead` | arras4_network/lib/network/MultiBuffer.cc:41-68 | a byte written before a reset is read after it |
| `Buffers.MultiBuffer.Skip` | arras4_network/lib/network/MultiBuffer.cc:70-88 | reports n bytes skipped while any byte is unread, and leaves all of them unread |
| `Buffers.MultiBuffer.AddBuffer` | arras4_network/lib/network/MultiBuffer.cc:125-133 | appends a filled buffer, refused while some buffer is unused |
| `Buffers.MultiBuffer.Collect` | arras4_network/lib/network/MultiBuffer.cc:90-99 | copies the unread bytes in order until the target is full |
| `Buffers.MultiBuffer.ShrinkTo` | arras4_network/lib/network/MultiBuffer.cc:156-179 | contents never change, and exactly the buffers beyond the limit that are not in use go |
| `Chunking.CutShape` | arras4_core_impl/lib/chunking/ChunkingMessageEndpoint.cc:79-121 | ceil(length/size) pieces, none empty, all but the last of full size, which join to the whole |
| `Chunking.ChunksTellTheTruth` | arras4_core_impl/lib/chunking/ChunkingMessageEndpoint.cc:56-121 | above the minimum size, ceil(length / size) chunks, or the exception from 65536 on; each has the message's metadata, destinations, class, version, name and ids, its index and the count, the right total and offset, and the body's bytes from there to where the next one starts |
| `Chunking.ChunkedIsCut` | arras4_network/lib/network/MultiBuffer.cc:101-154 | buffers of one size, full but for the last, are the cut of what was written |
| `Chunking.CutIntoBuffers` | arras4_core_impl/lib/chunking/ChunkingMessageEndpoint.cc:79-86 | however the content writes itself, the buffers are the cut of its bytes |
| `Chunking.PutEnvelope` | arras4_core_impl/lib/chunking/ChunkingMessageEndpoint.cc:56-122 | the envelope goes on as it is exactly if chunking is off, it is no object, or it is below the minimum; otherwise it throws exactly beyond 65535 * chunkSize bytes, and else passes on chunks only; for every call that ends |
| `Chunking.NeverWritten` | arras4_core_impl/lib/chunking/ChunkingMessageEndpoint.cc:79-83 | the calls left out do not end: with a chunk size of 0 nothing of a non-empty body is written in any number of turns |
| `Unchunking.GetUnchunked` | arras4_core_impl/lib/chunking/MessageUnchunker.cc:64-124 | nothing while chunks are missing, each error case, and otherwise the payloads joined in index order |
| `Unchunking.ChunkingMessageEndpoint.TakeEnvelope` | arras4_core_impl/lib/chunking/ChunkingMessageEndpoint.cc:30-53 | one turn of the loop as a function of the collectors and the envelope, for every envelope |
| `Unchunking.OutOfRangeIff` | arras4_core_impl/lib/chunking/MessageUnchunker.cc:45-60 | a chunk makes it leave the vector of slots if and only if its index is not below its positive count and no collector of its message has another count |
| `Unchunking.OneTooHigh` | arras4_core_impl/lib/chunking/MessageUnchunker.cc:45-60 | a first chunk numbered like its count does |
| `Unchunking.RefusedIff` | arras4_core_impl/lib/chunking/MessageUnchunker.cc:22-60 | which chunks are refused, with which exception, exactly: another count than before, a count of none, one that is there already; a refused chunk changes nothing |
| `Unchunking.StrangerIsRefused` | arras4_core_impl/lib/chunking/MessageUnchunker.cc:50-55 | a collector refuses the chunks of other messages |
| `Unchunking.AcceptedIs` | arras4_core_impl/lib/chunking/MessageUnchunker.cc:22-60 | an accepted chunk fills its slot and is counted, and all other slots and messages stay as they are |
| `Unchunking.ChunkingMessageEndpoint.GetEnvelope` | arras4_core_impl/lib/chunking/ChunkingMessageEndpoint.cc:25-54 | consumes up to the first envelope that can be delivered or the first error |
| `ChunkRoundTrip.RoundTripIff` | arras4_core_impl/lib/chunking/ChunkingMessageEndpoint.cc:25-122 | the chunks of several messages, each cut at its own size, each chunk once, in any interleaving and mixed with other traffic: ordinary messages come out in order, each chunked message when its last chunk arrives and identical, and no collector is left, if and only if the receiver has all their classes registered and their lengths are as claimed; otherwise something is thrown |
| `ChunkRoundTrip.CollectorStays` | arras4_core_impl/lib/chunking/ChunkingMessageEndpoint.cc:41-52 | a message that cannot be delivered is thrown over with its last chunk, and its collector with all its chunks stays behind |
| `ChunkRoundTrip.UnregisteredStays` | arras4_core_impl/lib/chunking/MessageUnchunker.cc:97-108 | so does the collector of every chunked message of a class the receiver has not registered |
| `ChunkRoundTrip.DeliveredOnce` | arras4_core_impl/lib/chunking/ChunkingMessageEndpoint.cc:48-52 | each chunked message is delivered at exactly one arrival |
| `ChunkRoundTrip.SplitArrivesIff` | arras4_core_impl/lib/chunking/ChunkingMessageEndpoint.cc:56-122 | what putEnvelope does with a message brings it out at the receiver once and unchanged if and only if it is not chunked, or makes between 1 and 65535 chunks, has the length it claims, and is of a class the receiver has registered |
| `Framing.DecodeAfter` | arras4_network/lib/network/BasicFramingSource.cc:26-63 | whole frames at the front of a stream decode to themselves whatever follows |
| `Framing.DecodeOfPrefix` | arras4_network/lib/network/BasicFramingSource.cc:26-63 | a stream cut off anywhere yields only frames that were sent, in order |
| `Framing.FramesRoundTripIff` | arras4_network/lib/network/BasicFramingSource.cc:45-57 | the list of frames comes back if and only if none is empty |
| `Framing.EmptyIsLost` | arras4_network/lib/network/BasicFramingSource.cc:45-57 | an empty frame between two others is not seen |
| `Framing.SendSocket.Send` | arras4_network/lib/network/SocketPeer.cc:446-518 | over short writes: all of it sent, or nothing sent and false, or an exception; the peer sees a prefix in any case |
| `Framing.BasicFramingSink.OpenFrame` | arras4_network/lib/network/BasicFramingSink.cc:42-57 | refused exactly from 2^32 bytes on, otherwise the header goes out |
| `Framing.BasicFramingSink.Write` | arras4_network/lib/network/BasicFramingSink.cc:28-35 | refused exactly beyond the frame's end |
| `Framing.BasicFramingSink.CloseFrame` | arras4_network/lib/network/BasicFramingSink.cc:60-67 | refused exactly if the frame is not full |
| `Framing.BufferedSink.AppendBuffer` | arras4_network/lib/network/BufferedSink.cc:40-44 | appended buffers queue up behind what is written |
| `Framing.BufferedSink.CloseFrame` | arras4_network/lib/network/BufferedSink.cc:52-72 | sends header and frame, refused exactly if too long, never over- or under-filled; a lost connection leaves a prefix |
| `FrameReceiving.ReceiveSocket.ReceiveAll` | arras4_network/lib/network/SocketPeer.cc:576-651 | over short reads: exactly the next n bytes in place, false exactly if the stream is over, an exception exactly if it ends in between |
| `FrameReceiving.BasicFramingSource.NextFrame` | arras4_network/lib/network/BasicFramingSource.cc:45-57 | the length the next header announces |
| `FrameReceiving.BasicFramingSource.Read` | arras4_network/lib/network/BasicFramingSource.cc:26-33 | refused exactly beyond the frame's end |
| `FrameReceiving.BufferedSource.PrepForFill` | arras4_network/lib/network/BufferedSource.cc:63-76 | the buffer is used again exactly if it is big enough |
| `FrameReceiving.BufferedSource.NextFrame` | arras4_network/lib/network/BufferedSource.cc:78-88 | the whole next frame is in the buffer, unread; an empty one leaves the buffer alone |
| `FrameReceiving.BufferedSource.Read` | arras4_network/lib/network/BufferedSource.cc:40-48 | the next bytes of the frame, refused exactly without a frame or beyond its end |
| `FrameReceiving.ReadFrames` | arras4_network/lib/network/BufferedSource.cc:78-88 | frame after frame, buffers taken away or reused, gives exactly the frames of the stream, and the first ones of them if receiving fails |
| `FrameTransport.AssembledInOrder` | arras4_network/lib/network/BufferedSink.cc:52-72 | parts arrive in order if all writes precede the appended buffers |
| `FrameTransport.SendFrames` | arras4_network/lib/network/BufferedSink.cc:40-77 | the stream holds the frames sent so far, exactly or cut off within the next |
| `FrameTransport.Transmit` | arras4_network/lib/network/BufferedSource.cc:78-88 | however frames are put together and however the socket splits bytes, the reader gets the non-empty frames sent; a connection lost by either side can only cost frames at the end |
| `EnvelopeCodec.DecodeExtended` | arras4_core_impl/lib/message_impl/MetadataImpl.cc:109-185 | any extension bytes behind the name, with the header length raised accordingly, decode to the same head and the same rest |
| `EnvelopeCodec.EncodedLength` | arras4_core_impl/lib/message_impl/MetadataImpl.cc:106-107 | the head is 66 + name length + 48 * address count bytes |
| `EnvelopeCodec.HeadRoundTripIff` | arras4_core_impl/lib/message_impl/MetadataImpl.cc:109-185 | every field comes back and exactly the head is consumed, if and only if the name is shorter than 65536 bytes and the address count fits 32 bits |
| `EnvelopeCodec.LongNames` | arras4_core_impl/lib/message_impl/MetadataImpl.cc:112-127 | a longer name arrives as its first length mod 65536 bytes |
| `EnvelopeCodec.RewriteIff` | arras4_core_impl/lib/message_impl/MessageReader.cc:77-150 | reading a readable frame opaquely and writing it again gives the same bytes if and only if its fixed part is one this version writes |
| `EnvelopeCodec.ExtensionIsDropped` | arras4_core_impl/lib/message_impl/MetadataImpl.cc:109-185 | every header extension is lost in it, and nothing else |
| `EnvelopeCodec.ForwardIsIdentity` | arras4_core_impl/lib/message_impl/MessageWriter.cc:68-133 | so forwarding is the identity on every frame this writer gets out |
| `MessageIO.ForwardIff` | arras4_core_impl/lib/message_impl/MessageReader.cc:77-150 | which is what reading without the registry and writing do: together they rewrite the head only, and nothing at all if and only if the fixed part is canonical |
| `ChunkCodec.ChunkRoundTripIff` | arras4_core_impl/lib/chunking/MessageChunk.cc:18-58 | a chunk comes back unchanged if and only if its name is shorter than 2^32 bytes |
| `MessageIO.MessageRoundTrip` | arras4_core_impl/lib/message_impl/MessageReader.cc:108-145 | a written message is read back with all its fields; content of an unknown class stays opaque with the same bytes |
| `MessageIO.ReadBack` | arras4_core_impl/lib/message_impl/MessageReader.cc:108-145 | the same by cases: what the reader knows becomes an object or a chunk again, anything else stays opaque, byte for byte |
| `WireFormat.HeaderLayout` | arras4_network/lib/network/BasicFramingSink.cc:42-57 | type 0, the length and two zero words, each low byte first |
| `WireFormat.HeadLayout` | arras4_core_impl/lib/message_impl/MetadataImpl.cc:89-143 | which byte of the head holds what: offset, version 4.0, trace bit, instance, source, name, count, addresses, class and version, by offsets |
| `WireFormat.ReadLayout` | arras4_core_impl/lib/message_impl/MetadataImpl.cc:145-185 | which byte each field is read from, in any readable head, extensions included |
| `WireFormat.ReadableIff` | arras4_core_impl/lib/message_impl/MetadataImpl.cc:145-185 | a head is readable exactly if its major version is 4, its offset is not before the end of the name, it has a sender, and nothing is missing |
| `WireFormat.MessageLayout` | arras4_core_impl/lib/message_impl/Envelope.cc:20-34 | where a whole message has its metadata, sender, destinations, class, version and content |
| `WireFormat.ChunkIsLaidOut` | arras4_core_impl/lib/chunking/MessageChunk.cc:18-33 | which byte of a chunk holds what |
| `WireFormat.ChunkIsRead` | arras4_core_impl/lib/chunking/MessageChunk.cc:36-58 | bytes laid out like that are read as that chunk, whoever wrote them |
| `MessageIO.MessageWriter.Serialize` | arras4_core_impl/lib/message_impl/Envelope.cc:20-25 | the sequence of writes is the encoded head, refused exactly for a name length of 0 mod 65536 |
| `MessageIO.MessageWriter.Write` | arras4_core_impl/lib/message_impl/MessageWriter.cc:68-133 | one frame holding head and content, attached or copied, or nothing at all on the stream |
| `MessageIO.MessageReader.ReadAddresses` | arras4_core_impl/lib/message_impl/MetadataImpl.cc:173-184 | the address loop agrees with the decoding function, errors included |
| `MessageIO.MessageReader.Deserialize` | arras4_core_impl/lib/message_impl/Envelope.cc:27-34 | the sequence of reads agrees with the decoding function, errors included |
| `MessageIO.MessageReader.ReadChunk` | arras4_core_impl/lib/chunking/MessageChunk.cc:36-58 | the sequence of reads agrees with the decoding function, errors included |
| `MessageIO.MessageReader.Read` | arras4_core_impl/lib/message_impl/MessageReader.cc:77-150 | takes exactly one frame off the stream and returns its message, error or timeout |
| `WireStack.StreamIsTransparent` | arras4_core_impl/lib/message_impl/PeerMessageEndpoint.cc:28-57 | envelopes written as frames are received as the same envelopes, contents of unknown classes as opaque ones |
| `WireStack.StackRoundTripIff` | arras4_core_impl/lib/chunking/ChunkingMessageEndpoint.cc:25-122 | interleaved chunks of several messages as bytes on one stream: every message is delivered once and whole if and only if the receiver can deliver each |
| `WireStack.DeliveredIff` | arras4_core_impl/lib/chunking/ChunkingMessageEndpoint.cc:56-122 | from the sending to the receiving endpoint through all layers, a message arrives, opaque if its class is unknown, if and only if it is not chunked or meets the conditions on chunked messages |
| `EndToEnd.Deliver` | arras4_core_impl/lib/chunking/ChunkingMessageEndpoint.cc:25-122 | the same for the objects themselves, putEnvelope, writer, sink, socket, source, reader and getEnvelope, one after the other; putEnvelope throws exactly for too many chunks |
| `MemoryTracking.Tracker.Reserve` | arras4_core_impl/lib/execute/MemoryTracking.h:33-42 | new counters and shortfall in wrapping 32-bit arithmetic |
| `MemoryTracking.Tracker.ReserveMemory` | arras4_core_impl/lib/execute/ProcessManager.cc:496-535 | reserve, and once more for what there is |
| `MemoryTracking.ReserveIff` | arras4_core_impl/lib/execute/MemoryTracking.h:33-42 | reserve takes what is free or reports exactly what is missing if and only if the sum it tests does not overflow |
| `MemoryTracking.ReserveUpToIff` | arras4_core_impl/lib/execute/ProcessManager.cc:496-535 | a process gets the smaller of what it asks for and what is free, and the total grows by that, if and only if the sum tested does not overflow |
| `MemoryTracking.OverflowGrants` | arras4_core_impl/lib/execute/ProcessManager.cc:496-535 | where the test does overflow, an oversized request is granted in full while the total goes down |
| `MemoryTracking.BorrowRepay` | arras4_core_impl/lib/execute/MemoryTracking.h:55-72 | repaying what was borrowed always restores the counters |
| `MemoryTracking.BorrowIff` | arras4_core_impl/lib/execute/MemoryTracking.h:55-72 | a loan is all or nothing and leaves the counters in order if and only if the sum tested does not overflow |
| `ProcessSafety.RunKeepsBase` | arras4_core_impl/lib/execute/Process.cc:126-295 | in every configuration, the invariant over all interleavings of the controller, the termination threads, the reaper and dying children |
| `ProcessSafety.LifecycleOnEveryRun` | arras4_core_impl/lib/execute/Process.cc:126-295 | in every configuration: a pid exactly while Spawned or Terminating; a finished termination thread never leaves Terminating behind; no joinable thread is ever overwritten |
| `ProcessMemory.CoveredIff` | arras4_core_impl/lib/execute/ProcessManager.cc:177-224 | on every run what the processes have is reserved and no more is reserved than there is, if and only if the most that can be reserved when a spawn begins and the most a spawn asks for stay below 2^32 together |
| `ProcessMemory.OverflowHappens` | arras4_core_impl/lib/execute/ProcessManager.cc:496-535 | otherwise a run after which the processes have more than is reserved |
| `ProcessLiveness.TerminationHappens` | arras4_core_impl/lib/execute/Process.cc:234-265 | in every configuration, on every fair infinite run a process that is Terminating becomes Terminated |
| `ProcessStages.StagesOnEveryRun` | arras4_core_impl/lib/execute/Process.cc:457-499 | on every run the thread is at the stage its history says: after a fast terminate it kills at once; otherwise it waits for a stop if one was sent, then terminates after one timeout or none, and kills after one more |
| `ProcessStages.StatusExplains` | arras4_core_impl/lib/execute/Process.cc:126-265 | whenever a process becomes terminated its status says what happened: a failed pipe or fork, a terminate before any spawn, a kill waited for in vain, or the exit being marked |
| `ProcessStages.ThreadEndsIff` | arras4_core_impl/lib/execute/Process.cc:457-499 | when exactly a termination thread ends |
| `ProcessStages.ReportedOnEveryRun` | arras4_core_impl/lib/execute/ProcessManager.cc:236-296 | every child dies once at most, and what is collected, marked and recorded for it is what it died with |
| `ProcessStages.MayHappen` | arras4_core_impl/lib/execute/Process.cc:126-295 | the runs leave out nothing that children, timers, the system and the controller can do |
| `ProcessSafety.StatusChangesOnExit` | arras4_core_impl/lib/execute/Process.cc:352-379 | the status changes only in the step that makes a process Terminated, and only reset leaves that state |
| `ProcessSafety.FirstStatusSurvives` | arras4_core_impl/lib/execute/Process.cc:352-379 | over any stretch of any run without a reset, a terminated process keeps its status |
| `ProcessSafety.ExitsOnEveryRun` | arras4_core_impl/lib/execute/ProcessManager.cc:195-296 | each child's exit is processed once or still known to the reaper's table or to the spawn about to enter it, even if the child died before postFork_cb |
| `ProcessReset.RunKeepsInv` | arras4_core_impl/lib/execute/Process.cc:126-295 | if no process given up is reset before the exit of its child has been handled, every run also keeps reservations, pids and children in step |
| `ProcessLiveness.ExitIsHandled` | arras4_core_impl/lib/execute/ProcessManager.cc:195-296 | without such a reset, the exit of every dead child is handled on every infinite run with a fair reaper and a spawn that goes on whenever it can again and again |
| `ProcessLiveness.StuckForever` | arras4_core_impl/lib/execute/ProcessManager.cc:268-289 | otherwise an infinite fair run in which a child's exit is never handled |
| `ProcessLiveness.AllHandledIff` | arras4_core_impl/lib/execute/ProcessManager.cc:195-296 | every fair run handles every exit if and only if there is no such reset |
| `ProcessReset.WrongExit` | arras4_core_impl/lib/execute/Process.cc:278-295 | a run in which a process given up is reset and spawned again, and the exit of its old child is recorded while the new one runs |
| `ProcessReset.RecordsOwnIff` | arras4_core_impl/lib/execute/ProcessManager.cc:268-296 | the status recorded is always that of the child the process has, or had when it was given up, if and only if there is no such reset |
| `ProcessReset.LocksCross` | arras4_core_impl/lib/execute/ProcessManager.cc:195-205 | a run in which spawn holds the process and waits for the table while the reaper holds the table and waits for that process |
| `ProcessReset.NoDeadlockIff` | arras4_core_impl/lib/execute/ProcessManager.cc:195-296 | no run deadlocks if and only if there is no such reset |
| `ProcessMemory.ResetStuckLeaks` | arras4_core_impl/lib/execute/Process.cc:278-295 | a run in which a process given up as uninterruptable is reset and spawned again, after which more is reserved than the processes have |
| `ProcessMemory.ConservedIff` | arras4_core_impl/lib/execute/ProcessManager.cc:177-224 | on every run the total reserved is the sum of the reservations and within what is available, if and only if no sum overflows and, where there is memory to ask for, no process given up is reset before the exit of its child has been handled |
| `ProcessMemory.SpawnGets` | arras4_core_impl/lib/execute/ProcessManager.cc:177-183 | each spawn gets the smaller of what it asks for and what is not reserved, and the total grows by that, if and only if the sum does not overflow |
| `ProcessSafety.ReleasedOnce` | arras4_core_impl/lib/execute/ProcessManager.cc:268-296 | in every configuration, the first exit_cb gives the reservation back and the second changes nothing |
| `CpuAffinity.DenotesOnce` | arras4_core_impl/lib/shared_impl/ExecutionLimits.cc:30-60 | no text denotes two lists |
| `CpuAffinity.Examples` | arras4_core_impl/lib/shared_impl/ExecutionLimits.cc:30-60 | one text that is a list and five that are none |
| `CpuAffinity.TenDigits` | arras4_core_impl/lib/shared_impl/ExecutionLimits.cc:40-57 | the ten digits and their values |
| `CpuAffinity.NextEntry` | arras4_core_impl/lib/shared_impl/ExecutionLimits.cc:40-57 | an entry is found where a canonical number below 1024 is followed by the end or by a comma and more, and where none is found the rest denotes nothing |
| `CpuAffinity.ProcListToCpuSet` | arras4_core_impl/lib/shared_impl/ExecutionLimits.cc:30-60 | accepts exactly the comma-joined canonical decimals below 1024 with the required count, and returns the set of them |
| `CpuAffinity.CpuSetToProcList` | arras4_core_impl/lib/shared_impl/ExecutionLimits.cc:62-72 | the members in ascending order |
| `CpuAffinity.PrintedDenotes` | arras4_core_impl/lib/shared_impl/ExecutionLimits.cc:62-72 | what is printed denotes the set, each member once, if and only if the set is not empty |
| `CpuAffinity.PrintAndParse` | arras4_core_impl/lib/shared_impl/ExecutionLimits.cc:30-72 | parsing what was printed succeeds exactly for non-empty sets and returns the set |
| `CpuAffinity.ExecutionLimits.EnableAffinity` | arras4_core_impl/lib/shared_impl/ExecutionLimits.cc:187-223 | succeeds exactly if the texts denote lists of the required sizes that do not overlap, stores their union, and otherwise changes nothing |
| `CpuAffinity.AffinitySize` | arras4_core_impl/lib/shared_impl/ExecutionLimits.cc:187-223 | at most maxCores * threadsPerCore cpus if and only if there are threads per core or no cpus, and that many if and only if nothing repeats and the 32-bit product does not wrap, too |
| `CpuAffinity.NoThreads` | arras4_core_impl/lib/shared_impl/ExecutionLimits.cc:187-223 | one core with 0 threads gets a cpu |
| `CpuAffinity.ThreadsWrap` | arras4_core_impl/lib/shared_impl/ExecutionLimits.cc:194-200 | 3 cores with 1431655767 threads each are given 5 cpus |
| `CaptureQueue.RunKeepsInv` | arras4_log/lib/arras4_log/AutoLogger.cc:68-140 | queue contents, positions and wait states on every run of the two threads |
| `CaptureQueue.CaptureOnEveryRun` | arras4_log/lib/arras4_log/AutoLogger.cc:68-140 | the threads are never both asleep, and what is logged is the lines read, in order, up to the closing one |
| `CaptureQueue.WhoStops` | arras4_log/lib/arras4_log/AutoLogger.cc:68-140 | the pipe thread ends with a complete closing line, the log thread with any, which it does not log, and no line logged is one |
| `CaptureQueue.MarkerIsPutBack` | arras4_log/lib/arras4_log/AutoLogger.cc:128-135 | a log thread that has ended leaves the closing line in the queue, without its newline |
| `CaptureQueue.CutClosingOverflows` | arras4_log/lib/arras4_log/AutoLogger.cc:68-140 | the bound fails for a closing line without its newline and more lines than the bound behind it |
| `CaptureQueue.OrphansOverflow` | arras4_log/lib/arras4_log/AutoLogger.cc:128-135 | a run in which the queue exceeds its bound by one |
| `CaptureQueue.SafeIff` | arras4_log/lib/arras4_log/AutoLogger.cc:68-140 | the bound holds and the pipe thread never waits for a log thread that is gone, on every run, if and only if fewer lines than the bound are read after a closing line without newline |
| `CaptureQueue.CompleteMarkerIsSafe` | arras4_log/lib/arras4_log/AutoLogger.cc:142-148 | which is so when every closing line is complete, as the destructor writes it |
| `CaptureShutdown.CaptureEnds` | arras4_log/lib/arras4_log/AutoLogger.cc:68-148 | on every weakly fair infinite run with a complete closing line both threads end, as the destructor expects, and everything before that line is logged |
| `RollingWindow.TickHolds` | arras4_core_impl/lib/computation_impl/PerformanceMonitor.cc:131-134 | after every tick the ring holds the last twelve intervals and nothing else |
| `RollingWindow.TickSumsUp` | arras4_core_impl/lib/computation_impl/PerformanceMonitor.cc:131-146 | and its sum is the difference of two totals |
| `RollingWindow.Run` | arras4_core_impl/lib/computation_impl/PerformanceMonitor.cc:94-169 | every heartbeat reports, field by field, the differences of cpu seconds, messages sent and messages received over the last interval and the last twelve, and the totals |

## Left out

- Dispatcher: the timeout of the wait for go, which returns with the monitor thread still joinable; `waitForGoSignal` waits without one here.
- Dispatcher: counters are unbounded. What must happen is proved for callbacks and `putEnvelope` calls that return, and for a `getEnvelope` that returns once its source is shut down.
- Routing: JSON is taken as already parsed, and explicit address lists (`addressTo`) are easy members.
- Buffers.MultiBuffer.Read: an access outside the vector, whose effect is undefined, is an error result here, and the state after reading past the unread bytes is not promised to be usable.
- Buffers: allocation failures. Buffers owned through unique pointers are values inside `MultiBuffer`, and unchunkers are values inside the endpoint, so aliasing between them is not modelled; `Buffer` itself is a class over an array.
- Buffers.MultiBuffer.Write: sizes are unbounded, so doubling never overflows.
- Chunking.PutEnvelope: excludes a chunk size of 0 with a body to cut, for which the original does not terminate and nothing can be promised (`NeverWritten`).
- Chunking.ChunksTellTheTruth: is about contents whose `serializedLength` is accurate; what becomes of others is stated by `ChunkRoundTrip.RoundTripIff`.
- ChunkRoundTrip.RoundTripIff: pieces shorter than 2^32; no frame carries a longer one, and its length would lose its upper bits.
- ChunkRoundTrip.SplitArrivesIff: the same.
- WireStack.DeliveredIff: messages and chunks that fit a frame, and a receiver that has the chunk class registered, as linking the library does.
- Unchunking.ChunkingMessageEndpoint.TakeEnvelope: an index outside the vector of slots, whose effect is undefined, is an error result here.
- Unchunking: a chunk that arrives as opaque content, because its class is not registered, is not treated as a chunk; the original dereferences a null pointer.
- MessageIO: content objects are known by their serialized bytes, and a registered class is assumed to read exactly its bytes. Creation times are not on the wire. Tracing and autosave are left out.
- Framing: poll, timeouts, accept, encryption, byte counters and `shrinkTo` of the source.
- Processes: one controller thread; process removal, `signal`, waiting callers, process groups and pipes; pids are not reused. The claim that no signal is sent to pid 0 is not made, since a timed-out wait does not look at the state again.
- Processes: memory loans, whose waiting loop has no exit; borrowing is modelled for the counters only, and `reserveMemory` is one step although no lock covers its two calls.
- CpuAffinity.ProcListToCpuSet: the entry counter is unbounded, so lists of 2^32 entries and more are counted correctly here.
- CpuAffinity: saving and restoring limits, which loses the hyperthread list, and applying affinity to threads.
- CaptureQueue: one log thread; the pipe and the logger behind it.
- RollingWindow.Run: cpu seconds are real numbers, so rounding is not modelled; counters only grow and do not wrap, and the three arrays, always used at the same index, are one array of records.
- Control groups, environment contexts, fork and exec, /proc parsing, HTTP, the log client, the SDK, other loggers, the crash reporter, the monitor and the command-line programs are foreign calls, input and output, or would only add easy members.
