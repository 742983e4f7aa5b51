# Talyn in Dafny

Talyn is an asyncio event loop: a Zig core under a thin Python shell. This project
models five of its parts and proves what they promise.

- **The ready queue.** A growable power-of-two ring buffer with masked indices, one
  `executed` flag per slot and ordered stores. `RingModel` is its memory as a value,
  `StopTheWorld` cuts a push and a take into single loads and stores and lets a
  traversal stop them anywhere, `RingBuffer` is the class over two arrays, `QueueSpec`
  the queue it implements. `Bits` has the masking and rounding arithmetic,
  `CallbackPayload` the tagged 64-bit payload.
- **The two drains.** `DrainSpec` says what a drain does to the queue when callbacks
  push, fail, are reported and are cleaned up; `DrainOutcomes` says which failures stop it,
  with what result, and what is reported; `Drain` has the loops, proved against `DrainSpec`.
- **Handles.** `Handle` is one dispatch and one cancel as methods; `HandleRace` is a
  dispatch racing with any number of cancelling threads, one atomic step at a time.
- **The TLS wrapper.** `TlsModel` is the wrapper with its protocol as a state machine
  over a SSL object and a raw transport that may answer anything, with application
  callbacks that write and close as they like; `TlsInvariants` has what every run keeps,
  `TlsLosses` which bytes are lost or put out of order and when exactly, `TlsProgress` what
  is handed over, waits, is armed or closed; `TlsTransport` is the
  object, proved against the state machine.
- **The server wrapper** (`ServerModel`, `ServerObject`) and **argument binding**
  (`VectorCall`). `Common` has what all of them use.

How to read it. A `usize` used as an index or a capacity is a natural number, and `And`
and `Or` are the operators on its binary digits; fewer than 2^64 pushes are assumed. The
payload word is a 64-bit vector, and an io result is its 32 bits. The allocator, the
interpreter, the SSL object, the raw transport, other threads and the code that callbacks
run are inputs: every theorem holds for every answer they can give. In a drain they are a
list of outcomes, one for each invocation; invocations past its end succeed and push
nothing, so that a drain which ends at all is covered and one that feeds itself forever
is not. Exceptions in the TLS model are a flag on the result of a call, `memoryview`s are
byte sequences, and the histories of bytes written, accepted, produced and sent are part
of the state. The outgoing BIO stays in the state after the connection was lost, when the
protocol has dropped it: bytes "waiting in the BIO" are then bytes nobody will send.
Reference counts and calls are counters and event lists.

Where the code does not keep what one would expect of it, the exact condition is proved:

- What the SSL object takes of a write that arrives unpaused while bytes are buffered goes
  ahead of them; what it does not take goes behind. This is reached from the application's
  own `resume_writing`, which runs before the buffer is flushed
  (`TlsLosses.ResumeCanReorder`, `TlsInvariants.OrderKeptExactly`,
  `TlsInvariants.WriteKeepsOrderExactly`, `TlsLosses.PlaintextInOrderExactly`).
- A fatal SSL error loses the chunk that was offered (`TlsLosses.FlushLosesExactly`,
  `TlsLosses.CompleteExactly`). Without any SSL error, a flush after the connection was
  lost loses a chunk as well: it is taken out of the buffer before the SSL object is found
  to be gone (`TlsLosses.ConnectionLossDropsChunk`, `TlsLosses.PlaintextConserved`).
- A raw write that fails other than by being paused loses the ciphertext it was given
  (`TlsLosses.SendAllKeepsExactly`, `TlsLosses.CipherInOrderExactly`).
- Ciphertext that reading or a failed handshake produces is not handed to the raw transport
  unless a write or flush follows (`TlsProgress.ReadLeavesCipher`,
  `TlsProgress.EventWaitsExactly`).
- A listener that raises while the server is closing leaves the waiters of an idle server
  waiting, and closing again returns at once (`ServerModel.RaisingCloseLosesWakeup`,
  `ServerModel.WakeupLostExactly`, `ServerModel.LostWakeupEndsExactly`).
- A handle that was claimed but whose context could not be entered was never run and does
  not read as cancelled (`HandleRace.ClaimedButNeverRun`, `HandleRace.CancelledMeansNeverRun`).
- Teardown of a handle that is not thread-safe neither runs it nor marks it cancelled
  (`Handle.TeardownLeavesPending`, `Handle.CancelledMeansNotRun`).

`dafny verify dfyconfig.toml` checks everything.

## Model

| member | source | states |
|---|---|---|
| Bits.MaskIsMod | src/callback_manager.zig:234 | masking an index with capacity - 1 is reduction modulo the capacity, for every power of two |
| Bits.CeilPowerOfTwo | src/callback_manager.zig:134-149 | the least power of two that is at least the argument, up to 2^63; every larger argument is refused |
| Bits.SmearTopBit | src/callback_manager.zig:139-148 | six shift-or steps turn any number of at most 64 digits into all ones below its top digit |
| CallbackPayload.RoundTrip | src/callback_manager.zig:94-110 | packing a body with its flags and unpacking gives both back |
| CallbackPayload.AccessorsRead | src/callback_manager.zig:33-76 | on a packed word each accessor returns its own field; unknown errnos read as EINVAL; the other kind of body reads as absent |
| CallbackPayload.CallbackDataVar.AccessorsReadValue | src/callback_manager.zig:33-76 | after any operations each accessor returns its field of the record that the setters are stated about |
| CallbackPayload.PayloadFieldsRead | src/callback_manager.zig:46-68 | module, callable and traverse hook are those stored at the payload's own address; a completion and an empty payload have none |
| CallbackPayload.CallbackDataVar.SetIo | src/callback_manager.zig:94-99 | replaces the body and keeps both flags, for every 32-bit result and 16-bit errno |
| CallbackPayload.CallbackDataVar.SetPython | src/callback_manager.zig:101-110 | the same for an aligned pointer or none |
| CallbackPayload.CallbackDataVar.SetCancelled | src/callback_manager.zig:78-84 | changes the cancelled flag of the record and nothing else |
| CallbackPayload.CallbackDataVar.SetBatchDispatched | src/callback_manager.zig:86-92 | changes the batch flag of the record and nothing else |
| CallbackPayload.CallbackDataVar.InitPython | src/callback_manager.zig:112-116 | starts as that pointer with both flags clear |
| CallbackPayload.CallbackDataVar.InitIo | src/callback_manager.zig:118-122 | starts as that completion with both flags clear |
| CallbackPayload.CallbackDataVar.Apply | src/callback_manager.zig:78-110 | after any run of setters the word stands for the record they were applied to |
| RingModel.SlotsApart | src/callback_manager.zig:234-236 | no two live indices share a slot, across any wrap-around |
| RingModel.GrownQueue | src/callback_manager.zig:193-227 | growing re-bases the indices to zero without reordering or losing a callback, whatever the fresh memory holds |
| StopTheWorld.StepKeepsInv | src/callback_manager.zig:229-279 | every load and store of a push and a take, interleaved, keeps flags, slots and queue consistent; a take marks the oldest callback and that is the one it copied |
| StopTheWorld.PushIsItsStores | src/callback_manager.zig:229-240 | the stores in the order of the code make up one push |
| StopTheWorld.TakeIsItsStores | src/callback_manager.zig:257-271 | the same for `next` and `consume` |
| StopTheWorld.StoppedAnywhere | docs/development/architectural-mandates.md:23 | stopped between any two stores of any interleaved run, a traversal sees exactly the queue in order; one step leaves the queue alone, completes a push or completes a take; pushed = taken ++ queued |
| QueueSpec.FirstInFirstOut | src/callback_manager.zig:229-271 | over any run, initial ++ accepted = taken ++ left |
| QueueSpec.EveryPushStored | src/callback_manager.zig:248-255 | with memory, no pushes that may grow the ring are refused until half the address space is queued: the queue is what it was ++ everything pushed |
| QueueSpec.GrowthIsBounded | src/callback_manager.zig:193-255 | all grows together copy at most twice the number of pushes, and the capacity stays within its initial value or twice the peak |
| QueueSpec.CapacityStaysPow2 | src/callback_manager.zig:161-227 | the capacity stays a power of two and is never exceeded |
| RingBuffer.DynamicRingBuffer.Init | src/callback_manager.zig:161-173 | an empty ring of the least power of two; a size too large or a failure of the first allocation changes nothing; a failure of the second leaves `callbacks` referring to the array that was given back |
| RingBuffer.DynamicRingBuffer.Grow | src/callback_manager.zig:193-227 | the grown ring, or no change when memory or the word size does not allow it |
| RingBuffer.DynamicRingBuffer.TryPush | src/callback_manager.zig:229-240 | appends to the queue unless it is full; the memory is that of the single stores |
| RingBuffer.DynamicRingBuffer.Push | src/callback_manager.zig:242-246 | overflow exactly if the ring was full; otherwise the callback is at the end of the queue |
| RingBuffer.DynamicRingBuffer.PushOrGrow | src/callback_manager.zig:248-255 | stored if and only if the ring was not full or memory and word size let it double; then the callback is at the end of the queue and the capacity has doubled exactly if the ring was full; otherwise out of memory and nothing changes |
| RingBuffer.DynamicRingBuffer.Next | src/callback_manager.zig:257-264 | the head of the queue, if any |
| RingBuffer.DynamicRingBuffer.Consume | src/callback_manager.zig:266-271 | drops the head of the queue |
| RingBuffer.DynamicRingBuffer.Reset | src/callback_manager.zig:273-279 | empties the queue and keeps the capacity |
| RingBuffer.ReferentsExactly | src/callback_manager.zig:292-305 | for one callback the hook, the module and the callable its payload leads to are visited, in that order, each exactly if it is there, and nothing else |
| RingBuffer.DynamicRingBuffer.Traverse | src/callback_manager.zig:281-307 | in any ring, at rest or stopped midway, visits in order what the callbacks not marked executed refer to, up to the first refusal, whatever each visit answers |
| RingBuffer.DynamicRingBuffer.Run | src/callback_manager.zig:161-279 | over any run of operations the ring answers and ends as the queue does |
| DrainSpec.DrainConserves | src/callback_manager.zig:324-410 | queued ++ pushed meanwhile = invoked ++ left; a normal return leaves nothing and returns the number invoked; an error leaves exactly what was not yet invoked |
| DrainSpec.ResetAfterIdleDropsNothing | src/loop/runner.zig:103-116 | the reset after a drain that ran nothing finds an empty ring |
| DrainOutcomes.DrainStopsExactly | src/callback_manager.zig:350-382 | every invocation before the last succeeded, or failed without being fatal and was handled; the result is the callback's failure if and only if the last one failed fatally or without a handler, the handler's if and only if it failed otherwise and the handler failed, and a count if and only if it too was survived |
| DrainOutcomes.DrainReportsExactly | src/callback_manager.zig:363-394 | the handler is called for exactly the failures that are not fatal, in order, if there is one; slow successes and only they are warned about |
| DrainOutcomes.DrainForgetsNothing | src/callback_manager.zig:324-410 | with rings that can grow, found ++ everything pushed by callbacks, handlers and others meanwhile = invoked ++ left, on every exit |
| DrainOutcomes.ThresholdGrowsWithQueue | src/callback_manager.zig:312-322 | the yield threshold is 64, doubled for every factor of four by which the queue exceeds 64, up to three times |
| DrainSpec.DrainCleansFailures | src/callback_manager.zig:350-382 | each callback is called once, in order, and cleanup runs once for each that failed and for no other, on every exit |
| DrainSpec.DrainBalancesReferences | src/callback_manager.zig:336-397 | in debug mode module and callback object are held during the call and the reports about it, and let go of before its cleanup and before a yield; every reference taken is dropped, on every exit |
| DrainSpec.DrainYieldsRegularly | src/callback_manager.zig:312-406 | the lock is given up once for every threshold of successful callbacks |
| DrainSpec.TeardownConserves | src/callback_manager.zig:412-426 | teardown calls all that was queued or is pushed meanwhile, and leaves nothing |
| DrainSpec.TeardownCallsCancelled | src/callback_manager.zig:412-426 | each remaining callback once, in order, with the cancelled flag set; cleanup for those that fail |
| DrainSpec.CancelledCopy | src/callback_manager.zig:418 | setting the flag leaves the rest of the payload alone |
| Drain.Iterate | src/callback_manager.zig:331-406 | one iteration takes the head out before calling it, and on every way out makes the pushes, drops the debug references and runs the cleanup that the specification lists, in its order |
| Drain.Execute | src/callback_manager.zig:324-410 | the loop invokes, records, returns and leaves in the ring exactly what the drain does about which the theorems of DrainSpec and DrainOutcomes speak, and terminates |
| Drain.Release | src/callback_manager.zig:412-426 | the loop calls, cleans up and leaves exactly what the teardown specification says, and terminates |
| Handle.PythonHandle.Dispatch | src/handle.zig:37-118 | an unflagged pending handle with a context that is entered and a callback is called once, with its stored arguments in order or with none; flagged, cancelled and already decided handles are not called; one reference is dropped unless the dispatch fails; the context is left; the timer id is cleared |
| Handle.PythonHandle.FastCancel | src/handle.zig:240-269 | only a pending handle is cancelled, and only then its timer, if it has one |
| Handle.PythonHandle.Serve | src/handle.zig:31-118 | a dispatch with its cleanup drops exactly one reference and leaves the context, whatever fails; it ends with "cancelled exactly if not run" if and only if `ReadsRight` held before |
| Handle.CancelledMeansNotRun | src/handle.zig:41-71 | after one dispatch "cancelled exactly if not run" holds if and only if the handle was cancelled before, or is thread-safe, pending and either flagged or sure to reach the call, or is not thread-safe, unflagged and sure to reach the call |
| Handle.TeardownLeavesPending | src/handle.zig:63-67 | a pending handle that is not thread-safe is neither run nor marked when its payload is flagged |
| Handle.DrainDropsOneReferenceEach | src/handle.zig:31-118 | in every drain of handles, references dropped inside dispatches and in cleanups are one for each dispatch made |
| Handle.TeardownDropsOneReferenceEach | src/callback_manager.zig:412-426 | the same at teardown, for every handle that was queued |
| HandleRace.StepKeepsInv | src/handle.zig:37-118 | every atomic step of the dispatch and of every cancel keeps the invariant, never undoes the decision, and never withdraws a queued timer cancellation |
| HandleRace.DecisionIsFinal | src/handle.zig:41-62 | the state leaves PENDING once and never changes again |
| HandleRace.NeverRunAfterCancel | src/handle.zig:240-253 | the callback runs at most once, and never in a run in which a cancel wins |
| HandleRace.OneCancelTimer | src/handle.zig:59-61 | at most one timer cancellation, by the winning cancel; none once the handle was claimed; the id is 0 while Python runs |
| HandleRace.OneReferenceDropped | src/handle.zig:31-118 | a finished dispatch with its cleanup has dropped exactly one reference |
| HandleRace.CancelledMeansNeverRun | src/handle.zig:279-287 | every run of a handle ends with "cancelled exactly when never run" if and only if its payload is flagged or nothing stands between claim and call, both settled before the race |
| HandleRace.DispatchIsItsSteps | src/handle.zig:37-118 | from any reachable world the dispatcher's atomic steps, undisturbed, make up one dispatch and cleanup: the state, the call, the reference and the timer id of `Handle` |
| HandleRace.CancelIsItsSteps | src/handle.zig:240-269 | the same for a cancelling thread and one cancel |
| HandleRace.DispatchAsSteps | src/handle.zig:31-118 | the object's dispatch and cleanup leave the state, timer id, number of calls and dropped references that the atomic steps leave, for what is read off the handle and the interpreter |
| HandleRace.ClaimedButNeverRun | src/handle.zig:77-79 | every other handle has a run without any cancel in which it is claimed, never called and not cancelled |
| TlsModel.FirstChunk | talyn/loop.py:97-120 | whenever the flush loop goes on after offering a chunk, the bytes buffered have shrunk, or the chunks have and the bytes have not grown: the measure by which it ends for every SSL object, empty chunks and partial writes included |
| TlsInvariants.StepKeeps | talyn/loop.py:55-206 | every event keeps plaintext, ciphertext, timer and backlog invariants |
| TlsLosses.FlushPlainPreserves | talyn/loop.py:95-120 | from every state and on every exit, accepted ++ lost ++ buffered afterwards is accepted ++ buffered before; a normal exit loses nothing |
| TlsLosses.FlushLosesExactly | talyn/loop.py:95-120 | a flush loses bytes if and only if some chunk that is not empty is answered with a fatal error, all offers before it having gone well, or finds the SSL object gone |
| TlsLosses.EventLosesExactly | talyn/loop.py:55-120 | one event, from any state, drops exactly what the writes and flushes it makes lose by the answers they get; from a state in order, all of these end in order if and only if none loses bytes or has bytes taken ahead of different buffered ones, and then so does the event |
| TlsLosses.PlaintextConserved | talyn/loop.py:55-120 | over any run accepted, buffered and lost bytes are those written; nothing is missing if and only if no write or flush of the run loses anything |
| TlsLosses.PlaintextInOrderExactly | talyn/loop.py:55-120 | over any run every write and flush ends with accepted ++ buffered = written, in order, if and only if none of them loses or reorders bytes; and then the run does |
| TlsLosses.CallKeepsOrderExactly | talyn/loop.py:55-120 | a write or flush made in order ends in order if and only if it loses nothing and reorders nothing, by what the SSL object answers |
| TlsLosses.CompleteExactly | talyn/loop.py:81-116 | no byte is ever missing, in any run without a lost connection, if and only if the SSL object never answers with a fatal error |
| TlsLosses.ConnectionLossDropsChunk | talyn/loop.py:97-103 | a run that loses a byte without any SSL error, with every peer |
| TlsInvariants.CiphertextInOrder | talyn/loop.py:1014-1030 | over any run sent ++ waiting in the BIO is all ciphertext produced, in order, if and only if no raw write was answered with an error other than "paused" |
| TlsLosses.CipherInOrderExactly | talyn/loop.py:1014-1030 | that holds in every run, if and only if the raw transport never answers so; otherwise there is a run that meets the answer |
| TlsLosses.SendAllKeepsExactly | talyn/loop.py:128-143 | one hand-over of the BIO keeps the ciphertext exactly if the raw transport takes it or is paused |
| TlsProgress.WriteSends | talyn/loop.py:55-93 | on an unpaused, attached wrapper the answer of the SSL object decides what is accepted, buffered or lost; then old BIO ++ new ciphertext goes to the raw transport in one write, if it is not empty: taken it is sent, paused it waits, and the call raises if and only if the answer was another error |
| TlsProgress.WriteHolds | talyn/loop.py:55-59 | a paused write only adds to the end of the buffer; one without a connection raises and changes nothing |
| TlsProgress.FlushSends | talyn/loop.py:95-143 | the same single hand-over for a flush; unless an error was fatal, plaintext stays buffered only because the SSL object wants something or took nothing of it |
| TlsProgress.ResumeExactly | talyn/loop.py:953-964 | writes are let through before the application is told; then a flush and one more hand-over |
| TlsProgress.HandshakeExactly | talyn/loop.py:966-981 | the handshake is done exactly if the SSL object finished it; a handshake that goes on hands over, one that fails sends nothing; the application hears of it only when it is done and the hand-over did not raise |
| TlsProgress.EventWaitsExactly | talyn/loop.py:966-1030 | an event leaves ciphertext in an attached BIO, with no paused raw transport as the reason, if and only if it was produced by a failed handshake, or by a read of which no unpaused write and no flush came |
| TlsProgress.WaitsOnlyWhenPaused | talyn/loop.py:1014-1030 | in every connected run without such an event ciphertext waits only because the last raw write was answered with "paused" |
| TlsProgress.ReadLeavesCipher | talyn/loop.py:982-1012 | a run that leaves ciphertext behind, with every peer |
| TlsProgress.ShutdownExactly | talyn/loop.py:156-206 | a shutdown goes on to one unwrap exactly if the flush did not raise and left nothing; if that hands over, a new timer is armed and the raw transport left open if and only if the answer is a want, no timer was stored and the loop is open; otherwise the raw transport is closed and no timer is stored |
| TlsProgress.ClosedLeavesNoTimer | talyn/loop.py:156-206 | after any run, a shutdown that does not wait closes and leaves no live timer |
| TlsProgress.CloseOnce | talyn/loop.py:150-154 | the first close is a shutdown marked as closing; the second changes nothing |
| TlsProgress.ReceiveShutsDown | talyn/loop.py:903-1012 | data that arrives while closing, and the end of the stream, end closed or with the timer armed unless something raised or plaintext is buffered |
| TlsProgress.TimerCloses | talyn/loop.py:202-206 | when the timer fires the raw transport is closed and no timer is left, after any run |
| TlsInvariants.ShutdownDiscipline | talyn/loop.py:156-206 | unwrap is never attempted with plaintext buffered; at most one shutdown timer is live and it is the stored one |
| TlsInvariants.ShutdownSettles | talyn/loop.py:156-206 | an attempt, from any state, that returns with nothing buffered closed the raw transport or left the timer armed |
| TlsInvariants.WriteKeepsOrderExactly | talyn/loop.py:55-93 | a write made in order ends in order if and only if it is paused or detached, or fails fatally with no data, or the bytes taken at once read the same ahead of the buffered ones as behind them; so a write of which nothing is taken keeps the order |
| TlsInvariants.OrderKeptExactly | talyn/loop.py:55-93 | all non-fatal writes keep the order if and only if the wrapper is paused, detached or holds no buffered bytes |
| TlsLosses.ResumeCanReorder | talyn/loop.py:953-964 | a run in which bytes are reordered from `resume_writing` |
| TlsTransport.SslTransportWrapper.Write | talyn/loop.py:55-93 | data is buffered when paused, offered to the SSL object otherwise, the part not taken is buffered, all of it is lost with a fatal error; raises only when the connection is gone or the raw write fails |
| TlsTransport.SslTransportWrapper.FlushWriteBuffer | talyn/loop.py:95-143 | chunks are offered from the front, remainders go back to the front, want-errors and zero writes stop the loop and a fatal error skips the ciphertext loop; both loops terminate |
| TlsTransport.SslTransportWrapper.FlushOutgoingOnce | talyn/loop.py:1014-1030 | the BIO is read whole and sent whole, or put back whole when the raw transport is paused |
| TlsTransport.SslTransportWrapper.StartShutdown | talyn/loop.py:156-200 | flushes first and gives up if plaintext is left; then unwraps, and closes unless it may arm the one timer |
| TlsTransport.SslTransportWrapper.ForceClose | talyn/loop.py:202-206 | cancels the stored timer, forgets it and closes the raw transport |
| TlsTransport.SslTransportWrapper.Close | talyn/loop.py:150-154 | only the first close starts a shutdown; later ones change nothing |
| TlsTransport.SslTransportWrapper.ResumeWriting | talyn/loop.py:953-964 | the application's writes and closes come first, whatever they raise, then the buffered plaintext, then the BIO |
| TlsTransport.SslTransportWrapper.BufferUpdated | talyn/loop.py:903-1012 | retries the shutdown when closing, else goes on with the handshake, else reads; end of stream starts the shutdown even if `eof_received` raises |
| TlsTransport.SslTransportWrapper.Perform | talyn/loop.py:36-206 | after any run of events the object is in the state about which the theorems of TlsInvariants and TlsLosses speak |
| ServerModel.WakeupLostExactly | talyn/server.py:39-85 | an event leaves somebody waiting on a closed, idle server if and only if it is a close cut short by a raising listener |
| ServerModel.NoLostWakeup | talyn/server.py:60-85 | over every run in which no listener raises, nobody is left waiting on a closed, idle server |
| ServerModel.RaisingCloseLosesWakeup | talyn/server.py:66-75 | a run that loses a wake-up, which a second close does not bring back |
| ServerModel.LostWakeupEndsExactly | talyn/server.py:34-75 | a lost wake-up ends exactly with a detach, with an attach that makes the server busy again, or with the cancellation of the last one waiting |
| ServerModel.ResolvedOnlyWhenIdle | talyn/server.py:39-75 | a waiter is resolved only by an event that ends idle and not serving |
| ServerModel.ResolvedExactly | talyn/server.py:39-78 | a listed waiter is resolved if and only if a detach leaves nothing active on a server closed, not started or without listeners, or a first close finds it idle and no listener raises |
| ServerModel.ServesExactly | talyn/server.py:66-90 | the server serves if and only if it has a listener, is not being closed, and served before or is told to start; a close is for good |
| ServerModel.DoneStaysDone | talyn/server.py:60-64 | a waiter that is done is not touched again |
| ServerModel.CountIsClients | talyn/server.py:34-44 | with paired attaches and detaches the active count is the number of clients |
| ServerObject.Server.Wakeup | talyn/server.py:60-64 | every listed waiter that is not done is resolved, the others are untouched, and the list is emptied |
| ServerObject.Server.Detach | talyn/server.py:39-44 | the count goes down whoever detaches; waiters are woken when it is not positive and the server is not serving |
| ServerObject.Server.Close | talyn/server.py:66-75 | closing twice changes nothing; a listener that raises ends the close before any wake-up, and the caller sees it |
| ServerObject.Server.WaitClosed | talyn/server.py:80-85 | returns at once exactly when closed and idle, else a fresh listed future |
| VectorCall.MergeVectorCallArgs | src/python_c.zig:559-598 | reports the first faulty keyword; with none, each parameter holds its positional argument, else its keyword's value, else nothing |
| VectorCall.MergeSucceedsExactly | src/python_c.zig:551-558 | in a usual call: success if and only if all keywords are known, distinct and aim at unfilled parameters |
| VectorCall.ParseVectorCallKwargs | src/python_c.zig:511-549 | a failure writes nothing and takes no reference; a success stores the last value given for each name, with one new reference each |
| VectorCall.OneReferenceEach | src/python_c.zig:545-549 | the new references to an object are as many as the variables that a keyword, the last of its name, gives it to |

## Left out

- Scheduling on io_uring, Future, Task, stream and datagram transports, DNS, signals, child watchers, subprocess pipes and executors.
- The crypto inside the SSL object and the kernel: the SSL object is an oracle.
- Weak memory: every atomic load, store and compare-and-swap is one step. `grow` and `reset` are one step each, and happen with neither a push nor a take under way.
- Index overflow after 2^64 pushes, and a ring used before `init`.
- Handle re-initialisation and `handle_clear` during a dispatch, which reset or force the state; reference counts of arguments and results.
- HandleRace.NeverRunAfterCancel: covers thread-safe handles; a handle that is not thread-safe is `Handle.PythonHandle`, where nothing runs concurrently.
- Timer durations, slow-callback timing beyond "slow or not", logging, and what the exception handler prints.
- TlsInvariants.CiphertextInOrder: covers the protocol class of `_create_ssl_connection`; the other three protocol classes do not all put ciphertext back.
- The `_write_wants_read` and `_write_wants_write` flags, which are set and never read, `_fatal_error` being scheduled, and application code writing from inside `pause_writing`.
- The incoming BIO: what a read returns to the application is not modelled, only what it does in reply.
- `_ReadPipeTransport`, and the parts of `Server` that only forward (sockets, close_clients, abort_clients, serve_forever).
