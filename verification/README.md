# Verified model of the boostDemo message pipeline

The repository writes one message pipeline several times over Boost.Asio: a length-prefixed frame
encoder, a byte stream, a receiver per session, a shared logic queue with one worker, a send queue per
session with at most one write in flight, and a client decoder. This project models each part as the
code has it and proves what the parts promise, alone and put together, for every interleaving of
threads, every chunking of the streams, every partial transfer and every error.

| file | contents |
|---|---|
| `Wire.dfy` | 16-bit network byte order, frames, header checks, the reference decoder |
| `MsgNodes.dfy` | the buffers `MsgNode`, `RecvNode`, `SendNode`, filled in place |
| `Receive.dfy`, `Receivers.dfy` | the callback receiver as a state machine; both receivers as code over a chunked socket |
| `Sender.dfy` | the send side with atomic critical sections: what every sender is meant to do |
| `SendThreads.dfy` | `Send`/`HandleWrite` with any number of threads, one shared-memory step at a time |
| `Sessions.dfy`, `PartialWrites.dfy` | the send queues as code |
| `Dispatcher.dfy` | the logic queue with atomic critical sections: what the monitor is meant to do |
| `LogicQueue.dfy`, `LogicSystems.dfy` | the monitor with its condition variable, step by step, and its loops as code |
| `Pipeline.dfy`, `EndToEnd.dfy` | the whole pipeline for any number of sessions, and what its clients get |
| `Delivery.dfy`, `FullQueue.dfy` | the pipeline comes to rest, and a client that paced itself has its replies then; exactly which pace is safe |
| `WebSocket.dfy` | the echo connection and the connection manager |
| `LockOrder.dfy` | all mutexes of a server |
| `ContextPool.dfy` | the round-robin pool |
| `Seqs.dfy` | facts about sequences |

`dafny verify dfyconfig.toml` checks everything.

## How the model reads the code

- **Steps.** A component that several threads share is a state, a set of actions with a guard each, and a
  next-state function; a run is a sequence of enabled actions. What runs in one thread is a class whose
  methods change the fields the source changes, and each method's contract ties it to the step it takes.
  That the guards forbid nothing but what a mutex, a wait or the network forbids is proved too
  (`OnlyTheMutexBlocks`, `NetworkIsFree`, `InputIsFree`, `OnlyMutexesBlock`).
- **Environment.** Chunk sizes, transfer sizes, errors, the choice of thread and the moment of a close are
  action arguments or parameters. A successful composed read or write moves everything; a failed one may
  have moved any part. A completion handler never runs inside the call that starts the operation.
- **One sender, three users.** `asynServer` starts a write before it releases the send mutex,
  `coroutineServer` and the websocket after. `SendThreads` has both orders as a parameter, and the queue
  limit as another. A unit on the wire is a byte for the servers and a whole payload for the websocket.
- **Composition.** `Pipeline` interleaves the receivers of all sessions, the worker and every thread inside
  any session's `Send` or `HandleWrite`, with the send sides at the granularity of `SendThreads`. Its logic
  queue is the atomic `Dispatcher`: each of its steps is a dispatcher step or invisible to it
  (`Pipeline.RunsDispatch`), and it may dispatch whenever the dispatcher may (`Pipeline.DispatchIff`). The
  monitor refines that same dispatcher, mutex, condition variable and stop flag included
  (`LogicQueue.RunsAreAtomic`). The end of a body read and the post that its handler makes are one step.
- **Progress.** A step advances if it is no input, no error and no empty transfer; it is local to a client
  if bytes move to or from that client only. `Delivery` proves that runs of such steps end, and what a client
  has when no local step is left, whatever the other clients do or fail to do. That threads which can step do
  step is the scheduler's part. The refinement of the dispatcher by itself carries no progress; the monitor
  makes it because its invisible steps are bounded (`LogicQueue.SilentIsBounded`, `WorkIsBounded`) and it
  rests only when all posts are dispatched (`AllDispatchedAtRest`). Delivery is for a server that is not being
  stopped: `Pipeline` has no stop flag, and `coroutineServer` can leave messages behind when it stops.
- **Both servers.** Limits, registered ids, the handler and the place of the unlock are parameters of
  `Pipeline.Server`. The composed header read of `coroutineServer` is the special case in which no header
  read returns fewer than four bytes.

## Where code and intention differ

The model follows the code.

- The test `size > MAX_SENDQUE` lets the queue hold MAX_SENDQUE + 1 items (`Sender.BoundIsOneMore`). A reply
  that meets a full queue is dropped without a word: not every request is answered. That can happen to a
  client of n requests if and only if n > MAX_SENDQUE + 1 (`FullQueue.RefusableIff`). A client of any number
  of requests is safe if it sends its first MAX_SENDQUE + 1 at will and a later one only while fewer than
  MAX_SENDQUE are without a decoded reply, and no more generous rule is safe (`FullQueue.PaceIff`). The
  repository's client sends every 200 ms without looking at its replies, so it is safe only as long as it
  happens to keep that pace.
- `coroutineServer` compares the message id with the length limit 2048; `asynServer` uses 10000
  (`Wire.IdLimitDiffers` says exactly when this shows).
- `asynServer` reads a header with one partial read and closes the session if it is short, although the
  rest may be about to arrive. On an honest stream it loses a message exactly if some header read is short
  (`Receive.LosesIff`, `Receive.GivesUpIff`, `Receive.ShortHeaderLoses`).
- `m_b_stop` is written without the mutex. The stop is lost exactly when the destructor notifies while the
  worker stands between its predicate test and `wait` (`LogicQueue.StopIsLostIff`, `StopCanBeLost`).
- `coroutineServer`'s worker loop tests the flag before each round and can leave messages behind that were
  posted before the stop: exactly if the flag goes up while the worker is at that test and a message waits,
  or while it deals with the front message and another one waits (`LogicQueue.LeftBehindIff`,
  `CoroutineCanLeaveBehind`); `asynServer`'s cannot.
- No receiver checks for a negative length. The receivers of the model stop there (`NegativeLength`), and
  nothing is claimed about what the program does next.
- After a failed write nothing pops the failed node: the session stays silent for ever, and its queue fills
  up to its bound (`Sender.DeadForever`, `SendThreads.FailureIsFinal`).
- After a failed partial write, `WriteCallBack` (source/asynReadWrite.cpp:38-41) returns without closing the
  socket, while the atomic sender's `Fail` also closes. `PartialWrites` uses that step; the difference does
  not show in what it states, because no write is started again either way.

## Model

| member | source | states |
|---|---|---|
| `Wire.FrameLayout` | project/asynServer/MsgNode.cpp:5-13 | the frame as numbers: two bytes of id, high byte first, in two's complement, two of length in the same way, then the payload |
| `Wire.HeaderMeans` | project/asynServer/CSession.cpp:86-110 | the decision on four header bytes as numbers: id first, then length, upper limits only, and which test refuses |
| `Wire.HostRoundTrip` | project/asynServer/MsgNode.cpp:5-13 | network byte order loses nothing of any signed 16-bit id or length |
| `Wire.NetworkRoundTrip` | project/asynServer/CSession.cpp:86-103 | every pair of bytes is the network form of the value it is read as |
| `Wire.HeaderOfFrame` | project/coroutineServer/CSession.cpp:53-63 | the header of a frame is accepted exactly if the message is within the limits, and then read back as it was written |
| `Wire.AcceptedHeader` | project/coroutineServer/CSession.cpp:53-63 | an accepted header is the header of a message within the limits |
| `Wire.DecodeInvertsEncode` | project/coroutineServer/CSession.cpp:42-82 | decoding the concatenated frames of any acceptable messages, whatever follows, gives those messages and the decoding of what follows |
| `Wire.EncodeInvertsDecode` | project/coroutineServer/CSession.cpp:42-82 | every byte stream is the frames of what is decoded from it followed by bytes at which the receiver has to stop or wait |
| `Wire.DecodeUnique` | project/coroutineServer/CSession.cpp:42-82 | there is no other way to split a stream like that |
| `Wire.DecodeResumes` | project/coroutineServer/CSession.cpp:42-82 | feeding s and then t is the same as feeding s + t |
| `Wire.DecodeMonotone` | project/coroutineServer/CSession.cpp:42-82 | later bytes never change what has been delivered |
| `Wire.DecodeStopsAtRefused` | project/asynServer/CSession.cpp:92-110 | of an honest client's stream exactly the messages before the first refused one are delivered |
| `Wire.IdLimitDiffers` | project/coroutineServer/CSession.cpp:57-63 | the coroutine server delivers a prefix of what asynServer's limits allow, and less exactly if the first message it refuses has an acceptable length and an id in 2049..10000 |
| `MsgNodes.MsgNode.constructor` | project/asynServer/MsgNode.h:18-21 | a zeroed buffer one byte longer than its length |
| `MsgNodes.MsgNode.Clear` | project/asynServer/MsgNode.h:33-36 | zeroes the message bytes and the counter, keeps the terminator |
| `MsgNodes.RecvNode.constructor` | project/asynServer/MsgNode.cpp:3-3 | a fresh zeroed buffer of the announced length, carrying the id |
| `MsgNodes.SendNode.constructor` | project/asynServer/MsgNode.cpp:5-13 | the in-place copies at three offsets build exactly the message's frame, and a terminator; the node carries the id and the frame's length |
| `Receive.StepKeepsInv` | project/asynServer/CSession.cpp:76-146 | after each callback the bytes consumed are the frames posted plus what the receiver's phase accounts for |
| `Receive.PostsPrefix` | project/asynServer/CSession.cpp:69-146 | however the reads are cut or fail, asynServer posts a prefix of what the composed reads would post |
| `Receive.ExhaustedMeans` | project/asynServer/CSession.cpp:69-120 | where the next two rows say that nothing more can be read in full: no read of a whole header or body fits into the rest of the stream |
| `Receive.PostsAll` | project/asynServer/CSession.cpp:69-146 | and all of it if no header read is short and none fails |
| `Receive.GivesUpIff` | project/asynServer/CSession.cpp:78-84 | it gives up over a short header exactly if some header read returned fewer than four bytes, over an error exactly if a read failed |
| `Receive.ShortHeaderLoses` | project/asynServer/CSession.cpp:79-84 | half a header at first loses a message that the other receiver delivers |
| `Receive.LosesIff` | project/asynServer/CSession.cpp:79-84 | on an honest client's stream, read until nothing more can be read in full, every message is posted if and only if no header read came back short |
| `Receivers.Socket.ReadSome` | project/asynServer/CSession.cpp:71-73 | one read takes some bytes off the stream and puts them at the given place of the buffer, nothing else |
| `Receivers.Socket.Read` | project/coroutineServer/CSession.cpp:47-50 | the composed read gets exactly the next bytes of the stream whatever the chunks, or fails, having got what there was, exactly if the stream is too short |
| `Receivers.LoopReceiver.ReadHead` | project/coroutineServer/CSession.cpp:46-63 | the decision on the next four bytes of the stream; nothing of an earlier header is left in the buffer |
| `Receivers.LoopReceiver.ReadBody` | project/coroutineServer/CSession.cpp:73-81 | posts the next bytes as a message in a fresh node; nodes posted before keep their values |
| `Receivers.LoopReceiver.ReceiveOne` | project/coroutineServer/CSession.cpp:42-82 | one turn of the loop takes exactly the first decodable message off the stream |
| `Receivers.LoopReceiver.Start` | project/coroutineServer/CSession.cpp:36-92 | for every chunking the loop delivers the decoding of the whole stream, cut exactly at the first turn that sees the close flag |
| `Receivers.DecodeOne` | project/coroutineServer/CSession.cpp:73-77 | after an accepted header the message is complete exactly if the announced number of bytes is there |
| `Receivers.CallbackReceiver.constructor` | project/asynServer/CSession.cpp:20-26 | no read started, nothing received |
| `Receivers.CallbackReceiver.Start` | project/asynServer/CSession.cpp:69-74 | clears the session's own header node and starts one header read into it |
| `Receivers.CallbackReceiver.Fill` | project/asynServer/CSession.cpp:117-120 | whatever a started read writes into its buffer, every posted node keeps its value |
| `Receivers.CallbackReceiver.HandleReadHead` | project/asynServer/CSession.cpp:76-127 | takes exactly the state machine's header step on the bytes read; then one body read is outstanding, into a newly allocated node of the announced length, or none and the session is closed |
| `Receivers.CallbackReceiver.HandleReadMsg` | project/asynServer/CSession.cpp:129-146 | posts the body's node with the bytes read, and exactly one header read is outstanding; posted nodes keep their values; an error leaves no read and closes |
| `Receivers.SessionReceives` | project/asynServer/CSession.cpp:69-146 | after any callbacks at most one read is outstanding, into a buffer of no posted node that has room for it, and the posted nodes hold a prefix of what composed reads get from the stream |
| `Sender.StepKeepsValid` | project/asynServer/CSession.cpp:28-62 | every send, transfer, completion, failure and close keeps the conservation of units and the queue bound |
| `Sender.TraceShows` | project/asynServer/CSession.cpp:28-62 | in every run the trace's written units are what went out, its accepted items what was queued, each offered item is accepted or refused in its turn, and the socket is closed exactly if a failure or a close shows, which they do exactly if they happen |
| `Sender.RunsConserve` | project/asynServer/CSession.cpp:148-169 | in every run wire + untransferred rest of the front + rest of the queue is the concatenation of the accepted items |
| `Sender.RunsKeepPlace` | project/asynServer/CSession.cpp:148-161 | in every run the queue is the end of what was accepted, and the wire is everything before it and the transferred part of the front |
| `Sender.FailKills` | project/asynServer/CSession.cpp:163-168 | an error leaves the failed item queued and nobody entitled to write |
| `Sender.DeadForever` | project/asynServer/CSession.cpp:36-39 | from then on no run writes anything, loses anything queued, or fails again |
| `Sender.ClosedIsSilent` | project/asynServer/CSession.cpp:64-67 | once the socket is closed the wire never grows |
| `Sender.BoundIsOneMore` | project/asynServer/CSession.cpp:30-36 | n sends fill the queue to the smaller of n and MAX_SENDQUE + 1 |
| `Sender.TransfersTerminate` | project/asynServer/CSession.cpp:148-161 | transfers and completions alone end after at most (units left + items left) steps |
| `Sender.OpenCanProgress` | project/asynServer/CSession.cpp:148-161 | on an open socket one of them is possible until everything accepted is on the wire |
| `SendThreads.OneToken` | project/coroutineServer/CSession.cpp:99-141 | in every interleaving exactly one right to write exists while something is queued and no write has failed, none after a failure, and on an empty queue one exactly while a thread has popped the last item and not yet seen so; its node is the queue's front; no pop of an empty queue; no write from a freed node |
| `SendThreads.FaultMeans` | project/coroutineServer/CSession.cpp:124-133 | the model's fault is exactly a pop of an empty queue or a transfer out of a node that has left it |
| `SendThreads.BufferStaysInFront` | project/asynServer/CSession.cpp:36-43 | the node of a write in flight stays in front until that write's own handler |
| `SendThreads.StepMimics` | project/coroutineServer/CSession.cpp:99-141 | each shared-memory step is one step of the atomic sender or invisible |
| `SendThreads.RunsAreAtomic` | project/coroutineServer/CSession.cpp:99-141 | every run of the threads has the trace of a run of the atomic sender |
| `SendThreads.AtomicRunsHappen` | project/asynServer/CSession.cpp:28-62 | every run of the atomic sender is the image of a run of the threads |
| `SendThreads.SameTraces` | project/coroutineServer/CSession.cpp:111-116 | starting the write before or after the unlock gives the same traces |
| `SendThreads.CoroutineRefinesAsyn` | project/coroutineServer/CSession.cpp:99-141 | every trace of the coroutine server's sender is one of asynServer's |
| `SendThreads.TraceShows` | project/coroutineServer/CSession.cpp:99-141 | the same for the threads: a trace determines wire, acceptances and closing |
| `SendThreads.TraceShowsErrors` | project/coroutineServer/CSession.cpp:136-140 | a trace shows a failure exactly if a write has failed, a close exactly if the read side has closed |
| `SendThreads.CallsAreAnswered` | project/coroutineServer/CSession.cpp:99-117 | every call of Send is accepted or refused once, by its own thread and in the order of the thread's calls, or the thread still carries the item |
| `SendThreads.OnlyTheMutexBlocks` | project/coroutineServer/CSession.cpp:99-141 | a thread inside Send or HandleWrite can always take its next step, unless it waits for a mutex that is owned |
| `SendThreads.NetworkIsFree` | project/asynServer/CSession.cpp:148-161 | calls, transfers of any size, completions, errors and closes are possible whatever other threads are doing |
| `SendThreads.HandlersRace` | project/coroutineServer/CSession.cpp:99-127 | a run with one thread inside Send while the write's handler starts in another |
| `SendThreads.WindowIff` | project/coroutineServer/CSession.cpp:111-116 | a thread can be about to start a write while another is inside Send exactly if writes start after the unlock |
| `SendThreads.ServersDiffer` | project/asynServer/CSession.cpp:46-61 | coroutineServer has that window and asynServer has not; their bounds are the same |
| `SendThreads.WireIsPrefix` | project/coroutineServer/CSession.cpp:99-141 | in every interleaving, errors included, the wire, then the untransferred rest of the front, then the rest of the queue are the accepted items; so the wire is a prefix of them, and all of them when the queue is empty |
| `SendThreads.FailureIsFinal` | project/coroutineServer/CSession.cpp:136-140 | after a failed write no thread ever starts another and the wire stays as it is |
| `SendThreads.SomeoneMoves` | project/coroutineServer/CSession.cpp:99-141 | while a thread is inside a critical section or waits for one, or a write is in flight on an open socket, some thread can proceed, or the write can move at least one unit or end |
| `Sessions.SendSession.constructor` | project/asynServer/CSession.cpp:20-26 | an empty queue and an empty history |
| `Sessions.SendSession.Send` | project/asynServer/CSession.cpp:46-62 | does exactly the atomic send of the message's frame; starts a write exactly if the queue was empty, of the new node |
| `Sessions.SendSession.HandleWrite` | project/asynServer/CSession.cpp:148-169 | pops and starts the next node, or on an error keeps the queue and closes |
| `Sessions.SendSession.Close` | project/asynServer/CSession.cpp:64-67 | closes and leaves the queue alone |
| `Sessions.SendSession.Transferred` | project/asynServer/CSession.cpp:157-157 | what goes out are bytes of the front node's real buffer |
| `Sessions.SessionConserves` | project/asynServer/CSession.cpp:28-62 | for every call history the wire is a prefix of the accepted frames and the real queue holds at most MAX_SENDQUE + 1 nodes |
| `PartialWrites.MsgNode.constructor` | include/asynReadWrite.h:11-14 | a copy of the bytes with nothing sent |
| `PartialWrites.Session.WriteToSocket` | source/asynReadWrite.cpp:65-78 | queues the bytes; starts a write exactly if nothing was queued |
| `PartialWrites.Session.Transferred` | source/asynReadWrite.cpp:47-48 | a transfer moves the first bytes not transferred yet |
| `PartialWrites.Session.WriteCallBack` | source/asynReadWrite.cpp:37-62 | keeps every counter within its length and the pending flag equal to a non-empty queue; the next write starts at the first untransferred byte; the measure of work left falls with every successful callback that moved a byte or finished a node |
| `PartialWrites.PartialWritesConserve` | source/asynReadWrite.cpp:37-78 | wire + rest of the front from the first untransferred byte + other nodes is everything written |
| `Dispatcher.StepKeepsOrder` | project/asynServer/LogicSystem.cpp:62-76 | posts, skips, calls and returns keep: dispatched then pending messages are the posts, and callbacks ran for the registered ids only |
| `LogicQueue.StepKeepsInv` | project/asynServer/LogicSystem.cpp:19-78 | every step of posters, worker and destructor keeps mutual exclusion, the wakeup condition and the dispatch order |
| `LogicQueue.StepMimics` | project/asynServer/LogicSystem.cpp:19-78 | each step of posters, worker and destructor is one atomic post, skip, call or return, or invisible |
| `LogicQueue.RunsAreAtomic` | project/coroutineServer/LogicSystem.cpp:21-81 | every run of the monitor, in either server, is a run of the atomic dispatcher with the same queue, posts and dispatches |
| `LogicQueue.AtomicRunsHappen` | project/asynServer/LogicSystem.cpp:19-78 | conversely every run of the atomic dispatcher is the image of a run of the monitor |
| `LogicQueue.NoLostWakeup` | project/asynServer/LogicSystem.cpp:19-38 | an unnotified sleeping worker has an empty queue, but for the poster that is just about to notify it; nothing is taken from an empty queue |
| `LogicQueue.PostWakesIff` | project/asynServer/LogicSystem.cpp:23-26 | a post wakes a sleeping worker up if and only if it made the queue's size 1 |
| `LogicQueue.FaultMeans` | project/asynServer/LogicSystem.cpp:45-76 | the model's fault is exactly taking from an empty queue |
| `LogicQueue.SomeoneMoves` | project/asynServer/LogicSystem.cpp:29-38 | unless it sleeps on an empty queue or has ended, the worker or the owner of the mutex can step |
| `LogicQueue.OnlyTheMutexBlocks` | project/asynServer/LogicSystem.cpp:19-27 | a poster can always take its next step, unless it waits for a mutex that is owned |
| `LogicQueue.OnlyTheMutexBlocksTheWorker` | project/asynServer/LogicSystem.cpp:29-78 | so can the worker unless it sleeps or has ended; spurious wakeups and the destructor are held up by nobody |
| `LogicQueue.PostersGetIn` | project/asynServer/LogicSystem.cpp:62-77 | outside the drain loop the mutex is free after each message, so that a waiting poster can get in |
| `LogicQueue.CountsAddUp` | project/asynServer/LogicSystem.cpp:29-78 | the counts in the next two rows: worker steps are its steps in the run, silent or seen by the dispatcher; pushes are the posts added |
| `LogicQueue.SilentIsBounded` | project/asynServer/LogicSystem.cpp:29-78 | between two dispatches the worker takes at most five other steps, and four more for each notification and spurious wakeup |
| `LogicQueue.WorkIsBounded` | project/asynServer/LogicSystem.cpp:29-78 | in every run the worker's steps are at most six for each message, four for each notification and spurious wakeup, and a rank of its place |
| `LogicQueue.AllDispatchedAtRest` | project/asynServer/LogicSystem.cpp:29-78 | when neither the worker nor the owner of the mutex can step, every post has been dispatched and returned, unless the worker has ended, which it does only after a stop |
| `LogicQueue.DispatchIsFifo` | project/asynServer/LogicSystem.cpp:62-76 | dispatched messages then pending ones are the posts in order; a callback ran for exactly those with a registered id |
| `LogicQueue.DrainOnStop` | project/asynServer/LogicSystem.cpp:40-60 | leaving through the drain loop means that all posts before the last lock acquisition are dispatched; asynServer leaves in no other way |
| `LogicQueue.LeftBehindIff` | project/coroutineServer/LogicSystem.cpp:31-80 | for every continuation of the moment the flag goes up in which the worker ends: something posted before the flag stays undispatched if and only if then coroutineServer's worker was at its outer test with a message waiting, or was busy with the front and another waited; it leaves by the outer test exactly if it was at that test or busy, having finished the message in hand only; what it leaves is exactly the rest of the posts |
| `LogicQueue.EndedForGood` | project/coroutineServer/LogicSystem.cpp:31-80 | after the worker's end nothing is dispatched and nothing leaves the queue |
| `LogicQueue.CoroutineCanLeaveBehind` | project/coroutineServer/LogicSystem.cpp:31-31 | a run that does |
| `LogicQueue.MissedForGood` | project/asynServer/LogicSystem.cpp:8-17 | a worker that missed the stop sleeps for ever without a post or a spurious wakeup |
| `LogicQueue.MissedIsRescued` | project/asynServer/LogicSystem.cpp:19-38 | a spurious wakeup or one more post makes it notice the stop |
| `LogicQueue.HeardEnds` | project/asynServer/LogicSystem.cpp:40-60 | a worker that heard it never sleeps again, whatever is posted, and its own steps are bounded by a measure of its place and queue plus two for each message posted meanwhile |
| `LogicQueue.DrainIsBounded` | project/asynServer/LogicSystem.cpp:44-57 | in the drain loop nothing can be posted, whatever the other threads try; the worker can always step, and after at most two steps a message and a last one it has left |
| `LogicQueue.StopIsLostIff` | project/asynServer/LogicSystem.cpp:8-17 | the stop is lost if and only if at the notification the worker stands between test and wait |
| `LogicQueue.StopCanBeLost` | project/asynServer/LogicSystem.cpp:35-38 | a run in which it is, in either server |
| `LogicSystems.LogicSystem.constructor` | project/asynServer/LogicSystem.cpp:3-6 | nothing queued, posted or dispatched, callbacks registered |
| `LogicSystems.LogicSystem.PostMsgToQue` | project/asynServer/LogicSystem.cpp:19-27 | appends, and notifies exactly if the queue was empty; dispatched then queued messages stay the posts |
| `LogicSystems.LogicSystem.DealFront` | project/asynServer/LogicSystem.cpp:64-76 | the front is removed and its callback run if and only if its id is registered, as the atomic dispatcher skips, or calls and returns |
| `LogicSystems.LogicSystem.DrainQueue` | project/asynServer/LogicSystem.cpp:44-57 | terminates with everything dispatched in order |
| `LogicSystems.LogicSystem.Release` | project/asynServer/LogicSystem.cpp:35-38 | while the lock is free others append; nothing else changes |
| `LogicSystems.LogicSystem.WaitWhileEmpty` | project/asynServer/LogicSystem.cpp:35-38 | ends with a message or a stop |
| `LogicSystems.LogicSystem.Round` | project/asynServer/LogicSystem.cpp:31-76 | one round dispatches exactly the first of all messages queued or still to come, unless the flag is seen; nothing is lost |
| `LogicSystems.LogicSystem.DealMsg` | project/asynServer/LogicSystem.cpp:29-78 | whatever is posted whenever the lock is free, the loop ends with an empty queue and all posts dispatched once, in order, with a callback for exactly the registered ids |
| `LogicSystems.LogicSystem.DealMsgCoroutine` | project/coroutineServer/LogicSystem.cpp:30-80 | a prefix is dispatched in order and the rest is left queued; the outer test ends the loop if and only if the flag was up from the start or the queue, filled by each burst and emptied by one message a round, was not empty at the last release of the lock, and then exactly that backlog less one and the last burst are left, otherwise nothing |
| `LogicSystems.OutcomesMean` | project/asynServer/LogicSystem.cpp:64-76 | the logged outcomes name the messages in order and a callback for exactly the registered ids |
| `Pipeline.SendKeeps` | project/asynServer/CSession.cpp:28-62 | each shared-memory step of a session's send side keeps its token invariant and its image in the atomic sender |
| `Pipeline.StepKeepsInv` | project/asynServer/LogicSystem.cpp:29-78 | every step of every thread of every session keeps the relation of requests, posts, records, the worker's place in its callback, replies and wires |
| `Pipeline.StepDispatches` | project/asynServer/LogicSystem.cpp:19-78 | each step of the pipeline is one step of the atomic dispatcher on its logic queue, or invisible to it |
| `Pipeline.RunsDispatch` | project/asynServer/LogicSystem.cpp:19-78 | the logic queue of every run of the pipeline is a run of the atomic dispatcher |
| `Pipeline.DispatchIff` | project/asynServer/LogicSystem.cpp:62-76 | the pipeline can dispatch if and only if the dispatcher can |
| `EndToEnd.RepliesInOrder` | project/asynServer/CSession.cpp:129-146 | decoded replies are a prefix of the handler's replies to the answered requests, which are a subsequence of the dispatched ones, which are a prefix of the acceptable ones sent |
| `EndToEnd.ClientGetsReplies` | project/syncClient/main.cpp:43-70 | in every run each client decodes, in order, the replies to a subsequence of its own requests |
| `EndToEnd.SkippedOnlyIf` | project/asynServer/LogicSystem.cpp:67-76 | a dispatched request is unanswered only for an unregistered id or a send queue of MAX_SENDQUE + 1 items |
| `EndToEnd.SettledClientHasAll` | project/syncClient/main.cpp:43-70 | with everything taken in, both queues empty and none refused, the client has the replies to exactly its registered requests |
| `EndToEnd.SyncClientIsAnswered` | project/syncClient/main.cpp:25-40 | the repository's client then has a reply to every request |
| `EndToEnd.GivingUpCloses` | project/asynServer/CSession.cpp:78-126 | in every run a socket is closed if and only if its receiver has given up, for whatever reason, or a write has failed; from then on nothing goes out on it |
| `EndToEnd.InputIsFree` | project/asynServer/CSession.cpp:69-146 | whatever the server is doing, clients can connect and send, and any piece of a header, a body, or an error can arrive; only a body waits for a running callback |
| `EndToEnd.ThreadsAreFree` | project/asynServer/CSession.cpp:148-161 | a session's network threads are held up by its own send mutex only |
| `EndToEnd.WritesAreFree` | project/asynServer/CSession.cpp:148-161 | its write in flight moves, ends or fails whatever the worker and other sessions are doing |
| `EndToEnd.ReadCanProceed` | project/asynServer/CSession.cpp:69-74 | outstanding bytes of acceptable requests can always be taken in by a full read |
| `EndToEnd.SendCanProceed` | project/asynServer/CSession.cpp:148-161 | a send side that is not at rest can make a step that is no error and no empty transfer, and that needs the network only if no thread is inside |
| `EndToEnd.FrontCanProceed` | project/asynServer/LogicSystem.cpp:62-76 | the front message can be dispatched, or its callback can go on or return, without any network's help |
| `EndToEnd.PipelineMoves` | project/asynServer/CSession.cpp:129-169 | until an open session with acceptable requests is settled, some step is possible that is no input, no error and no empty transfer, and needs no other client to send or read |
| `Delivery.StepDoesWork` | project/asynServer/CSession.cpp:28-169 | every step but an input or an empty transfer, errors included, lessens the work left |
| `Delivery.RunsTerminate` | project/asynServer/CSession.cpp:28-169 | without new input at most as many steps are made as the work left at the start, in every interleaving |
| `Delivery.RestIsReached` | project/asynServer/LogicSystem.cpp:29-78 | from every reachable state, advancing steps of any chosen kind lead to a state where none of that kind is left |
| `Delivery.DecodedAreSent` | project/asynServer/CSession.cpp:148-161 | a client has decoded at most one reply more than have left its send queue |
| `Delivery.PacedAreNeverRefused` | project/asynServer/CSession.cpp:30-36 | a client that sends its first MAX_SENDQUE + 1 requests at will and later ones only while fewer than MAX_SENDQUE are undecoded never has a reply refused, in any run of any length |
| `Delivery.FewAreNeverRefused` | project/asynServer/CSession.cpp:30-36 | in particular one that sends at most MAX_SENDQUE + 1 in all |
| `Delivery.RestingClientHasAll` | project/syncClient/main.cpp:43-70 | when no step local to a client is left, an open session with acceptable requests sent at that pace has decoded the replies to exactly its registered ones, even if other clients have stopped reading |
| `Delivery.RestingSyncClient` | project/syncClient/main.cpp:25-40 | for the repository's client's requests, sent at that pace in any number: a reply to every one |
| `Delivery.CanBeServed` | project/asynServer/CSession.cpp:129-169 | after every run, steps local to such a client can still bring it all its replies, and meanwhile nothing is read from, sent by or written to any other client |
| `FullQueue.RefusableIff` | project/asynServer/CSession.cpp:30-36 | a run exists in which a client of n requests has a reply refused if and only if n > 1001, for every server with a callback for an acceptable request |
| `FullQueue.PaceIff` | project/asynServer/CSession.cpp:30-36 | a rule "the first `first` requests at will, later ones only while fewer than `window` are undecoded" rules out refused replies in all runs if and only if first <= 1001 and window <= 1000 |
| `WebSocket.StepKeepsInv` | project/webSocket/Connection.cpp:29-101 | every handler keeps the echo and the manager's entry right |
| `WebSocket.EchoIsFaithful` | project/webSocket/Connection.cpp:29-101 | payloads written are a prefix of payloads read, one write in flight while something is queued, in the manager exactly from handshake to first error |
| `WebSocket.ConnectionManager.constructor` | project/webSocket/ConnectionManager.cpp:4-7 | no connections |
| `WebSocket.ConnectionManager.AddConnection` | project/webSocket/ConnectionManager.cpp:9-11 | inserts unless the key exists |
| `WebSocket.ConnectionManager.RemoveConnection` | project/webSocket/ConnectionManager.cpp:13-15 | removes that key only |
| `WebSocket.Connection.constructor` | project/webSocket/Connection.cpp:5-10 | a new connection is not in the manager |
| `WebSocket.Connection.OnAccept` | project/webSocket/Connection.cpp:29-42 | takes the handshake step; every other connection stays as valid as it was |
| `WebSocket.Connection.OnRead` | project/webSocket/Connection.cpp:44-79 | queues the payload; starts a write exactly if none was queued; other connections stay valid |
| `WebSocket.Connection.OnReadError` | project/webSocket/Connection.cpp:60-63 | removes the connection's own entry; other connections stay valid |
| `WebSocket.Connection.Transferred` | project/webSocket/Connection.cpp:83-83 | what a write puts on the wire is the queue's front payload |
| `WebSocket.Connection.OnWritten` | project/webSocket/Connection.cpp:81-101 | pops and starts the next payload, or removes the entry and keeps the queue; other connections stay valid |
| `WebSocket.ConnectionEchoes` | project/webSocket/Connection.cpp:29-101 | after any handlers, the payloads written and then those still to be written are the payloads read, and the manager has the connection under its uuid exactly from handshake to first error |
| `LockOrder.StepKeepsInv` | project/asynServer/LogicSystem.cpp:31-31 | each thread owns exactly the mutexes of its place in the code |
| `LockOrder.NoWaitCycle` | project/asynServer/LogicSystem.cpp:74-76 | in every reachable state the waits-for relation has no cycle and no chain longer than two |
| `LockOrder.ChainOfThree` | project/asynServer/LogicSystem.cpp:74-76 | a run that attains the bound: a poster behind the worker, whose callback's Send is behind a network thread |
| `LockOrder.EveryPlaceIsReached` | project/asynServer/LogicSystem.cpp:29-78 | every thread can be at every place, a callback's Send included |
| `LockOrder.OnlyMutexesBlock` | project/asynServer/LogicSystem.cpp:29-78 | a thread can leave its place unless another owns the mutex that it waits for |
| `LockOrder.BlockedBehindRunning` | project/asynServer/CSession.cpp:29-29 | behind every blocked thread there is one that can go on |
| `ContextPool.AsioIOContextPool.constructor` | project/asynServer/AsioIOContextPool.cpp:3-6 | starts at context 0 |
| `ContextPool.AsioIOContextPool.GetIOContext` | project/asynServer/AsioIOContextPool.cpp:21-27 | call k returns context k mod n |
| `ContextPool.ServedByRounds` | project/asynServer/AsioIOContextPool.cpp:21-27 | a context has been chosen once per completed round, and once more if the index has passed it |
| `ContextPool.Balanced` | project/asynServer/AsioIOContextPool.cpp:21-27 | after any number of calls two contexts' counts differ by at most one |

## Left out

- Payloads longer than 32763 bytes: `SendNode` computes its length in a `short`, so callers are required to stay below.
- Negative lengths in a received header: the model stops; the allocation that follows in the program is not modelled.
- JSON parsing and printing: the handler is an arbitrary function from requests to replies; a handler that throws is not modelled.
- Data races in the C++ memory model: shared flags such as `m_b_stop` and `m_flag_close` are read and written in one step.
- The contents of `CServer`'s session maps (their mutex is in `LockOrder`), `shared_ptr` counting, timers, uuids, console output, Asio itself.
- The reference kept across `pop` in `WriteCallBack`, and the strings handed to a first partial write and to a websocket write that end before the write does: modelled as stable copies.
- `ReadFromSocket` and `ReadCallBack`: `recv_pending` is never set, so nothing in the code keeps a second read from starting; the counter loop alone adds little.
- `WriteToSocketErr` and `WriteAllToSocket` with their callbacks: documented as unordered, and as relying on complete sends.
- The websocket text/binary flag: set at read time, not queued with the message.
- The io_context pool's threads, and a pool of size zero.
- gRPC, HTTP and Node.js programs, generated code, endpoint and synchronous demos: plumbing or easy members.
