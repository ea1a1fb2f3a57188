# Stalker2D networking, verified

A Dafny model of the request protocol of the Stalker2D client and server, of the event buses and
of the client's stack of application states, with proofs about every run. Verify it with
`dafny verify --resource-limit 2000000 --verification-time-limit 0 dfyconfig.toml`.

## How it is built

Every stateful component exists twice. A *state machine* over values (`ConnectionSpec`,
`RequestTable`, `RequestCalls`, `DisconnectCalls`, `ClientSpec`, `ServerSpec`, `WorldSpec`, `EventBusSpec`,
`StateStack`) says what each segment of the source does; classes with the source's own fields
(`Connections`, `Client`, `Server`, `World`, `MessageChannel`, `EventBus`, `StateManagement`,
`NetworkResults`) perform the segments step by step. A method that models a segment is proved to
do exactly what the function or step of the state machine does. For one connection
(`Connection.Resume`) and for the whole client (`ClientLoop.Run`) that covers every run, so the
theorems about runs hold of those objects. For the server it covers single segments, and for
`NetworkComponent` the methods are specified directly; the results about whole runs of these two
are about the state machines `ServerSpec` and `NetworkResults.HandOver`.

| file | contents |
|---|---|
| `FrameCodec`, `Framing`, `MessageChannel` | the length prefix, frames on a byte stream, the channel |
| `ConnectionSpec`, `Connections` | one connection: bounded queue, read loop, write loop, close once |
| `ConnectionLaws` | exactly when a connection closes, accepts, writes and reads |
| `Delivery` | what the peer can still get from a connection that closed |
| `RequestTable`, `RequestCalls` | the client's table of pending requests; the calls and how they end |
| `DisconnectCalls` | the `disconnect()` calls and how long they wait |
| `ClientSpec`, `ClientInvariants`, `ClientTheorems`, `ClientLaws`, `Client` | the two client managers and all connections they ever create |
| `WorldSpec`, `World` | players, registry, snapshot |
| `ServerSpec`, `ServerInvariants`, `ServerLaws`, `Server` | the server's managers, handler, world and connections |
| `EndToEnd` | one client, the wire and the server together |
| `PingRun` | a run of all three in which a ping completes |
| `EventBusSpec`, `EventBus` | breadth-first and depth-first delivery |
| `StateStack`, `StateManagement` | the deferred changes of the state stack and the UI's mounted roots |
| `NetworkResults` | the hand-over of results to the application thread |

## Assumptions

- One thread runs each program, as both build their `io_context`
  (`client/src/network/NetworkComponent.cpp:36`, `server/src/main.cpp:38`). The code between two
  suspension points is one step. Tasks posted to one strand run in the order posted; everything
  else interleaves freely, and a schedule is any sequence of enabled steps.
- A timer's wait is armed, fired and queued, or cancelled and queued. Cancelling one that has
  fired has no effect.
- A task that holds a weak pointer runs only while something owns its object (`alive`).
- The close handler of a connection is the last thing every path through `stopImpl` does. A
  method of `Connection` returns the flag `notify` to whoever resumed it, who then runs the
  handler within the same step.
- A pending entry is a value tagged with the call that owns it; the tag stands for the pointer
  the source compares.
- Protobuf is a serialise/parse pair. Where it matters it is assumed that parsing a
  serialisation gives the message back. The JSON text of a snapshot is represented by what it
  says: the map and the sequence of players.
- Request ids are 64-bit and wrap in the model. The theorems about requests are about runs in
  which fewer than 2^64 ids are issued; with more, ids repeat.
- Which server connection a connection of the client ends at is fixed by a step of its own
  (`Paired`), possible at any time before the server has read a message from it. So the server may
  accept, start reading, or even close before or after the client's `connect()` resumes.
- Completion handlers of finished requests run in the order the requests finished: each is
  scheduled on the one `io_context` when its coroutine ends. Draining may happen at any time.
- The validated configuration is taken as given: the queue limits are at least 1.

## What is proved

- *End-to-end correlation.* With one client of interest, any number of reconnects, any chunking
  and cutting of the streams, and other clients sending anything: a ping that returns a value
  returns the timestamp of that very call; a snapshot request returns the snapshot the server
  computed for that very request, listing all players of the world at that moment, the caller's
  own among them; and "unexpected payload", a server error, "state was lost" and "cancelled
  without response" cannot happen. A run in which a ping does complete is constructed.
- *One outcome per call.* Table entries and suspended calls match one to one. Whoever of
  response, timeout, local stop and remote close settles a request first decides its outcome:
  that response, a timeout, "client disconnected", or "connection closed".
- *Coupling and reconnects.* The two client managers agree at every step boundary. A close notice
  is never acted on for a later connection. A disconnecting client always has a step available
  that brings it closer to Disconnected, no step brings it further away. A `disconnect()` called in
  any other state is suspended, and returns only after Disconnected was reached.
- *Exact behaviour in every reachable state.* When a connection closes and what every other step
  of it does; when `connect()`, `disconnect()` and `sendRequest()` begin, fail or wait; when the
  server answers, drops, accepts and stops. While a connection is open nothing it accepted is
  beyond reach: all of it can be written.
- *Wire safety and write-queue conservation* for every connection, including stops in mid-frame,
  and exactly when a connection that closes has lost nothing.
- *Server.* No orphan players, ordered answers, and the two maps of the world refine a plain
  history of connects, disconnects and moves.
- *Event buses.* Both deliver the same multiset; dispatch goes generation by generation and its
  turns are counted exactly; synchronous publishing is a stack run with subscribers in order.
- *State stack.* The batch law, exactly when a batch fails and what it leaves queued, and exactly
  when the UI is still right after a failure.

Two properties one might expect are false of the code. Both have a failing input and the exact
condition.

- *After state changes were applied, only the top state is interactive.* A batch that fails
  refreshes nothing: with two states on the stack and two pops queued, the remaining state stays
  disabled (`StateStack.TwoPopsLeaveADisabledTop`). It holds exactly when the state that is left
  was enabled before (`StateStack.InteractiveAfterFailure`).
- *What a connection accepted for sending reaches the wire.* Closing, for whatever reason, drops
  the queue and what is left of the frame being written: of three queued messages with an
  unencodable one in the middle, the last is never sent (`Delivery.UnencodableDropsTheNext`). All
  is readable by the peer exactly when just before the close the queue was empty and the transport
  had every byte of the frame being written (`Delivery.CloseLosesTheRest`).

## Model

| member | source | states |
|---|---|---|
| `FrameCodec.EncodeIsBigEndian` | shared/src/shared/network/MessageFrameCodec.hpp:41-93 | exactly the sizes 1..max are encoded, the errors tell zero from too big, and on hosts of either byte order the four bytes are the big-endian digits of the size |
| `FrameCodec.DecodeIsBigEndian` | shared/src/shared/network/MessageFrameCodec.hpp:62-86 | decoding yields the big-endian number on every host, and exactly the numbers 1..max are accepted |
| `FrameCodec.BigEndianInjective` | shared/src/shared/network/MessageFrameCodec.hpp:88-93 | two prefixes that denote the same number are the same four bytes |
| `FrameCodec.PrefixRoundTrip` | shared/src/shared/network/MessageFrameCodec.hpp:41-93 | between any two hosts encode and decode undo each other both ways, and both hosts write the same bytes |
| `Framing.ReadFrame` | shared/src/shared/network/MessageChannel.hpp:42-58 | a completed read takes a prefix, a non-empty payload and no more than was there |
| `Framing.ReadFrameExactly` | shared/src/shared/network/MessageChannel.hpp:42-58 | a read of any bytes at all: when it waits, refuses, or returns which message, by the big-endian size and the parser alone |
| `Framing.EncodableExactly` | shared/src/shared/network/MessageChannel.hpp:60-75 | a message can be written exactly when it serialises to a size the prefix encoder accepts |
| `Framing.FrontIsRead` | shared/src/shared/network/MessageChannel.hpp:42-58 | one frame and anything after it, cut anywhere: read whole and exactly, or waited for, or refused for its size |
| `Framing.ReadFrameIsFirst` | shared/src/shared/network/MessageChannel.hpp:42-78 | on any cut of the frames of some messages a completed read returns the first of them and consumes exactly its frame; it waits only when that frame is not whole, and objects only to a message above its own limit |
| `Framing.DecodedIsPrefix` | shared/src/shared/network/MessageChannel.hpp:42-78 | whatever part of the stream has arrived, the messages decoded are a prefix, in order, of those written |
| `Framing.WholeFramesDecode` | shared/src/shared/network/MessageChannel.hpp:42-78 | no message whose frame arrived whole is withheld |
| `Framing.UniquelyDecodable` | shared/src/shared/network/MessageChannel.hpp:60-78 | two message lists with equal concatenated frames are equal |
| `Framing.ChunkingIsInvisible` | shared/src/shared/network/MessageChannel.hpp:45-51 | a reader fed piecewise, however the stream is chunked, produces the messages of the whole stream |
| `Framing.DrainSplits` | shared/src/shared/network/MessageChannel.hpp:45-51 | reading on after more bytes came gives what reading everything at once gives |
| `MessageChannel.Socket.AsyncRead` | shared/src/shared/network/MessageChannel.hpp:46-51 | an exact read delivers all bytes asked for, or fails when the stream ends first |
| `MessageChannel.Socket.AsyncWrite` | shared/src/shared/network/MessageChannel.hpp:76-77 | a write hands over everything, or as much as the transport takes before it fails |
| `MessageChannel.MessageChannel.constructor` | shared/src/shared/network/MessageChannel.hpp:37-40 | the limit is kept and the buffer starts at its size |
| `MessageChannel.MessageChannel.ReadMessage` | shared/src/shared/network/MessageChannel.hpp:42-58 | the result is the one frame at the front of the stream, nothing after it is consumed, and a short stream is told apart from a malformed one |
| `MessageChannel.MessageChannel.WriteMessage` | shared/src/shared/network/MessageChannel.hpp:60-78 | success puts exactly the frame on the wire, a failure in mid-frame a prefix of it, a message that cannot be encoded nothing |
| `ConnectionSpec.SendKeeps` | shared/src/shared/network/Connection.hpp:175-207 | accepting a message, or closing because the queue is full, keeps conservation, the single writer and wire safety |
| `ConnectionSpec.WriterLoopKeeps` | shared/src/shared/network/Connection.hpp:248-274 | the head of the write loop keeps them whether it takes a message, finishes, or fails to encode |
| `ConnectionSpec.TakeBytesKeeps` | shared/src/shared/network/MessageChannel.hpp:76-77 | the transport may take a frame in any pieces; what is written stays a prefix of the accepted frames |
| `ConnectionSpec.PayloadWrittenKeeps` | shared/src/shared/network/Connection.hpp:255-271 | finishing a frame moves its message from in flight to written and goes on with the next |
| `ConnectionSpec.StepKeepsValid` | shared/src/shared/network/Connection.hpp:147-296 | every segment of a connection keeps the whole invariant: one loop of each kind, closed once, conserved queue, exact wire |
| `ConnectionSpec.WriteQueueConservation` | shared/src/shared/network/Connection.hpp:175-274 | over every run: at most one write loop; while open accepted = written ++ in flight ++ queue; a non-empty queue means the writer is running; the queue stays within its limit and what is outstanding exceeds it by at most one; the owner is notified exactly when closed |
| `ConnectionSpec.WireSafety` | shared/src/shared/network/Connection.hpp:248-296 | over every run the bytes written are a prefix of the frames of the accepted messages, and any arrived part of them decodes to a prefix of those messages |
| `ConnectionSpec.ClosedIsFinal` | shared/src/shared/network/Connection.hpp:276-296 | after closing no step accepts, writes, delivers or notifies |
| `ConnectionSpec.ClosedStaysQuiet` | shared/src/shared/network/Connection.hpp:276-313 | and so for the rest of every run: the close handler is called at most once |
| `ConnectionLaws.ClosesExactly` | shared/src/shared/network/Connection.hpp:175-296 | in every run a step closes an open connection exactly when it is a stop, a message for a full queue, an unencodable message whose turn it is, a failed write or read, or a handler that threw |
| `ConnectionLaws.OpenStepsProgress` | shared/src/shared/network/Connection.hpp:147-274 | in every run any other step accepts, receives, dequeues and counts as written exactly what it should, in order, and nothing else |
| `ConnectionLaws.SendTaskExactly` | shared/src/shared/network/Connection.hpp:175-207 | in every run a sent message is accepted as long as the queue has room, whatever it holds, and with the queue full the connection closes |
| `ConnectionLaws.OpenConnectionsRead` | shared/src/shared/network/Connection.hpp:209-246 | in every run an open connection reads on after each message it handled, and starts reading once |
| `ConnectionLaws.ClosedLoopsEnd` | shared/src/shared/network/Connection.hpp:209-274 | after closing, a loop that is resumed ends |
| `ConnectionLaws.EverythingCanBeWritten` | shared/src/shared/network/Connection.hpp:248-274 | from any open state with an encodable queue, the write loop can get everything accepted onto the wire and finish |
| `Delivery.ClosingDrops` | shared/src/shared/network/Connection.hpp:276-296 | a step that closes a connection, from whichever source, leaves nothing unwritten exactly when nothing was in flight or queued |
| `Delivery.CloseLosesTheRest` | shared/src/shared/network/Connection.hpp:248-296 | over every run, the peer can read every accepted message off the wire exactly when just before the close the queue was empty and the frame being written was complete; otherwise a proper prefix |
| `Delivery.UnencodableDropsTheNext` | shared/src/shared/network/Connection.hpp:255-270 | a run with an unencodable message between two others: the first arrives, the last never does |
| `Connections.Connection.constructor` | shared/src/shared/network/Connection.hpp:116-145 | a new connection has done nothing yet |
| `Connections.Connection.Start` | shared/src/shared/network/Connection.hpp:61-73 | posts the start behind the tasks already on the strand |
| `Connections.Connection.Stop` | shared/src/shared/network/Connection.hpp:75-94 | posts the stop behind the tasks already on the strand |
| `Connections.Connection.Send` | shared/src/shared/network/Connection.hpp:96-108 | posts the message behind the tasks already on the strand |
| `Connections.Connection.StartImpl` | shared/src/shared/network/Connection.hpp:147-173 | spawns the read loop once, and not after closing |
| `Connections.Connection.StopImpl` | shared/src/shared/network/Connection.hpp:276-296 | closes, drops the queue, and notifies exactly the first time |
| `Connections.Connection.SendImpl` | shared/src/shared/network/Connection.hpp:175-207 | ignores when closed, closes when the queue is full, else queues and spawns a writer if none runs |
| `Connections.Connection.RunTask` | shared/src/shared/network/Connection.hpp:65-72 | the front task runs if the connection is still owned, and is gone either way |
| `Connections.Connection.WriterLoop` | shared/src/shared/network/Connection.hpp:250-273 | the segment between two writes is the one of the state machine |
| `Connections.Connection.WriteFails` | shared/src/shared/network/Connection.hpp:260-270 | a failed write ends the loop and closes |
| `Connections.Connection.ReaderLoop` | shared/src/shared/network/Connection.hpp:211-215 | the loop reads on unless the connection closed |
| `Connections.Connection.ReadCompletes` | shared/src/shared/network/Connection.hpp:215-226 | a message read is delivered exactly when the connection is still open |
| `Connections.Connection.ReadEnds` | shared/src/shared/network/Connection.hpp:235-244 | a failed read ends the loop and closes |
| `Connections.Connection.HandlerReturns` | shared/src/shared/network/Connection.hpp:224-233 | a handler that throws closes the connection, one that returns lets the loop go on |
| `Connections.Connection.Resume` | shared/src/shared/network/Connection.hpp:147-296 | whatever is resumed, the object takes exactly the step of the state machine, and reports whether it closed |
| `RequestTable.AdmitKeeps` | client/src/network/ClientRequestManager.cpp:134-155 | a request is refused exactly when there is no connection or the table is full, for the reason that applies; an admitted one gets the next number, which is fresh, and a waiting entry of its own |
| `RequestTable.StopKeeps` | client/src/network/ClientRequestManager.cpp:81-90 | with a connection, a local stop settles exactly the waiting requests, as failed for its reason unless their timer had fired; nothing is removed, and without a connection nothing happens |
| `RequestTable.ClosedKeeps` | client/src/network/ClientRequestManager.cpp:217-247 | the close task settles exactly the waiting requests, as failed for the close unless their timer had fired; afterwards nothing waits without a connection |
| `RequestTable.ExpireKeeps` | client/src/network/ClientRequestManager.cpp:157-172 | a deadline that passes settles that request as timed out and no other |
| `RequestTable.ReceiveKeeps` | client/src/network/ClientRequestManager.cpp:192-215 | a response settles the waiting request of its id with itself, unless the timer had fired, and no other; late, duplicate and unknown ones change nothing |
| `RequestTable.SettlersOf` | client/src/network/ClientRequestManager.cpp:81-247 | what each of deadline, response, stop and close makes of a request whose timer still runs |
| `RequestTable.FinishKeeps` | client/src/network/ClientRequestManager.cpp:157-190 | a resumed call ends as its own response, a timeout exactly when the timer had fired, or a failure; its entry and no other is removed |
| `RequestTable.VerdictSurvives` | client/src/network/ClientRequestManager.cpp:192-247 | no later response, deadline, stop or close changes how a settled request ends |
| `RequestCalls.CalledKeeps` | client/src/network/ClientRequestManager.cpp:92-155 | a new call keeps the one-to-one match of entries and suspended calls and the accounting of outcomes |
| `RequestCalls.EndedKeeps` | client/src/network/ClientRequestManager.cpp:157-190 | so does the end of a call |
| `ClientInvariants.ConnStepKeepsLink` | client/src/network/ClientRequestManager.cpp:55-69 | any step of any connection keeps the managers coupled, posting a close notice exactly when that connection closes |
| `ClientInvariants.NextKeepsLink` | client/src/network/ConnectionManager.cpp:33-172 | every step of the client keeps: state, socket and connection agree; only the newest connection can be live; at most its own close notice is outstanding; a disconnecting client has its stop posted |
| `ClientInvariants.NoStaleClose` | client/src/network/ClientRequestManager.cpp:217-234 | a close task always belongs to the current connection, and ends in Disconnected with no notice left |
| `ClientInvariants.DesignedTransitions` | client/src/network/ConnectionManager.cpp:33-172 | only the designed state transitions happen, and a connect that succeeds never meets "already active" |
| `ClientInvariants.NextKeepsWaiters` | client/src/network/ConnectionManager.cpp:129-173 | a disconnect waits only while disconnecting, and is released only after Disconnected was reached since it began |
| `ClientInvariants.HelpIsAvailable` | client/src/network/ConnectionManager.cpp:52-60 | a disconnecting client always has a step that brings it closer: the interrupted connect, the posted stop, or the close task |
| `ClientInvariants.StepsConverge` | client/src/network/ConnectionManager.cpp:99-172 | no step of anyone moves a disconnecting client away from Disconnected, and a helpful step brings it strictly closer |
| `ClientInvariants.DisconnectNeverHangs` | client/src/network/ConnectionManager.cpp:99-172 | a run with as many helpful steps as remain passes through Disconnected |
| `ClientTheorems.NextKeepsValid` | client/src/network/ClientRequestManager.cpp:33-252 | every step keeps the whole client invariant |
| `ClientTheorems.RunKeepsValid` | client/src/network/ClientRequestManager.cpp:33-252 | and so does every run |
| `ClientTheorems.RunKeepsLink` | client/src/network/ConnectionManager.cpp:33-172 | coupling, waiters and the absence of lone requests survive every run, however many ids it issues |
| `ClientTheorems.ManagersAgree` | client/src/network/ConnectionManager.cpp:33-122 | in every reachable state the managers are coupled, at most one close notice is outstanding, and without a connection no request waits |
| `ClientTheorems.OneOutcomePerCall` | client/src/network/ClientRequestManager.cpp:134-190 | in every reachable state a call is suspended or finished, not both, and finished once; the table is within its limit and matches the suspended calls; responses carry the id issued to the call; "state was lost" and "cancelled without response" never happen |
| `ClientTheorems.VerdictStands` | client/src/network/ClientRequestManager.cpp:157-247 | once the timer of a request is done, no step but its own resumption matters, and that ends it as decided |
| `ClientTheorems.SettlerDecides` | client/src/network/ClientRequestManager.cpp:81-247 | a step settles a waiting request with the outcome that belongs to it, or leaves it waiting |
| `ClientTheorems.VerdictIsFinal` | client/src/network/ClientRequestManager.cpp:134-252 | over any continuation a settled call ends with its verdict, or is still to |
| `ClientTheorems.FirstSettlerWins` | client/src/network/ClientRequestManager.cpp:81-252 | in every run: the first deadline, own response, local disconnect or close to meet a waiting request ends its call as timed out, with that response, as "client disconnected" or as "connection closed", whatever happens afterwards |
| `ClientLaws.ConnectBeginsExactly` | client/src/network/ConnectionManager.cpp:33-46 | in every reachable state connect() begins exactly when Disconnected, with no other under way, and else throws and changes nothing |
| `ClientLaws.ConnectEndsExactly` | client/src/network/ConnectionManager.cpp:46-97 | in every reachable state a finished async_connect leads to Connected with one new started connection exactly when it succeeded and nobody disconnected, and else to Disconnected with none |
| `ClientLaws.DisconnectStopsExactly` | client/src/network/ConnectionManager.cpp:99-122 | in every reachable state disconnect() posts a stop to the current connection exactly when Connected |
| `ClientLaws.SendBeginsExactly` | client/src/network/ClientRequestManager.cpp:134-158 | in every reachable state a call fails at once exactly without a connection or with a full table, with that exception, and else is suspended under the next id with its timer running and its message posted to the current connection |
| `ClientLaws.SenderResumesExactly` | client/src/network/ClientRequestManager.cpp:157-160 | in every reachable state a suspended call can resume exactly when its timer has expired or was cancelled |
| `DisconnectCalls.BeginKeeps` | client/src/network/ConnectionManager.cpp:104-121 | a new call returns at once when Disconnected and waits otherwise; every call stays counted once |
| `DisconnectCalls.ReachedKeeps` | client/src/network/ConnectionManager.cpp:164-172 | on reaching Disconnected every waiting call is due and released |
| `DisconnectCalls.ReturnKeeps` | client/src/network/ConnectionManager.cpp:129-138 | a released call returns, once |
| `ClientTheorems.DisconnectReturnsAfterDisconnected` | client/src/network/ConnectionManager.cpp:99-141 | in every reachable state each disconnect() ever called is suspended or has returned, once; it has returned only if the client was Disconnected when it began or has been since, even if a new cycle started; outside Disconnecting every suspended one can return |
| `ClientTheorems.DisconnectWaits` | client/src/network/ConnectionManager.cpp:99-141 | a disconnect() called outside Disconnected is suspended with the client disconnecting, and at every later point of every run is still suspended or has returned after Disconnected was reached |
| `ClientTheorems.ReachableDisconnectsFinish` | client/src/network/ConnectionManager.cpp:99-172 | from every reachable disconnecting state some helpful step is enabled, and runs with enough of them pass through Disconnected |
| `Client.ClientRequestManager.constructor` | client/src/network/ClientRequestManager.cpp:24-31 | starts empty and unconnected |
| `Client.ClientRequestManager.Start` | client/src/network/ClientRequestManager.cpp:33-79 | refuses while a connection is held, changing nothing; else holds a new one whose start is posted |
| `Client.ClientRequestManager.Stop` | client/src/network/ClientRequestManager.cpp:81-90 | without a connection nothing; else fails what waits and posts the connection's stop |
| `Client.ClientRequestManager.FailPendingRequests` | client/src/network/ClientRequestManager.cpp:236-247 | the loop fails exactly the waiting entries and leaves the others |
| `Client.ClientRequestManager.BeginSend` | client/src/network/ClientRequestManager.cpp:134-158 | the table, the id counter and the posted message after send() up to its wait |
| `Client.ClientRequestManager.FinishSend` | client/src/network/ClientRequestManager.cpp:160-190 | the table and the outcome after the wait |
| `Client.ClientRequestManager.TimerExpires` | client/src/network/ClientRequestManager.cpp:151-158 | the one timer fires |
| `Client.ClientRequestManager.Receive` | client/src/network/ClientRequestManager.cpp:192-215 | the table after a response |
| `Client.ClientRequestManager.ConnectionClosed` | client/src/network/ClientRequestManager.cpp:217-234 | drops the connection, fails what waits, and tells the owner once |
| `Client.ConnectionManager.constructor` | client/src/network/ConnectionManager.cpp:16-31 | starts disconnected |
| `Client.ConnectionManager.SetState` | client/src/network/ConnectionManager.cpp:164-172 | the exchange, releasing all waiters exactly on Disconnecting to Disconnected |
| `Client.ConnectionManager.CancelWaiters` | client/src/network/ConnectionManager.cpp:168-171 | every outstanding wait completes |
| `Client.ConnectionManager.WaitForDisconnected` | client/src/network/ConnectionManager.cpp:129-141 | the call waits behind the others |
| `Client.ConnectionManager.Connect` | client/src/network/ConnectionManager.cpp:33-46 | allowed exactly when disconnected |
| `Client.ConnectionManager.ConnectFinished` | client/src/network/ConnectionManager.cpp:46-97 | Disconnected and an exception after a disconnect or an error; otherwise Connected with a started connection |
| `Client.ConnectionManager.Disconnect` | client/src/network/ConnectionManager.cpp:99-122 | returns when Disconnected, else waits; interrupts the connect or stops the connection, by state |
| `Client.ConnectionManager.ConnectionClosed` | client/src/network/ConnectionManager.cpp:155-162 | Disconnected from Connected or Disconnecting, else nothing |
| `Client.ConnectionManager.DisconnectResumes` | client/src/network/ConnectionManager.cpp:129-138 | a released waiter is gone |
| `Client.ClientLoop.Take` | client/src/network/ClientRequestManager.cpp:33-252 | whatever is resumed, the client's objects together take exactly the step of the state machine |
| `Client.ClientLoop.Run` | client/src/network/ConnectionManager.cpp:33-172 | driven by any schedule, the objects end where the state machine does, within the invariant |
| `WorldSpec.PerformKeepsValid` | server/src/game/WorldService.cpp:20-54 | connect, disconnect and apply keep the registry a bijection onto the live players, with ids in 1 up to the counter |
| `WorldSpec.WorldRefinesHistory` | server/src/game/WorldService.cpp:20-54 | after any history the two maps mean, per connection, the sums of the x and of the y of its moves since connecting, starting at the origin; ids count admissions, so none is reused; the map is the bootstrap one |
| `WorldSpec.ConnectAfterHistory` | server/src/game/WorldState.cpp:41-51 | a connect gives the present player and changes nothing, or the next number below 255, and throws exactly when 254 have been admitted, changing nothing |
| `WorldSpec.ListingIsExact` | server/src/game/WorldState.cpp:72-83 | the listing has exactly the players, once each, in increasing id order |
| `WorldSpec.SnapshotShowsEveryone` | server/src/game/WorldState.cpp:72-92 | a snapshot shows the map and lists every player, the requester's among them |
| `World.WorldState.constructor` | server/src/game/WorldState.cpp:10-18 | no players, first id 1 |
| `World.WorldState.AddPlayer` | server/src/game/WorldState.cpp:41-51 | a player at the spawn under the next id, or an exception and no change |
| `World.WorldState.RemovePlayer` | server/src/game/WorldState.cpp:53-56 | removes that player only and says whether it was there |
| `World.WorldState.MovePlayer` | server/src/game/WorldState.cpp:58-70 | moves that player only and says whether it was there |
| `World.WorldState.ToJson` | server/src/game/WorldState.cpp:72-92 | the loop lists the players in key order |
| `World.PlayerConnectionRegistry.Bind` | server/src/game/PlayerConnectionRegistry.cpp:5-19 | afterwards looking the connection up finds this player, and every other lookup is as before |
| `World.PlayerConnectionRegistry.Unbind` | server/src/game/PlayerConnectionRegistry.cpp:5-24 | afterwards looking the connection up finds nobody, and every other lookup is as before |
| `World.WorldService.constructor` | server/src/game/WorldService.cpp:10-18 | the empty bootstrap world |
| `World.WorldService.Connect` | server/src/game/WorldService.cpp:20-30 | both maps after a connect; a refusal leaves both as they were |
| `World.WorldService.Disconnect` | server/src/game/WorldService.cpp:32-43 | both maps after a disconnect |
| `World.WorldService.Apply` | server/src/game/WorldService.cpp:45-54 | the world after an action; unknown connections change nothing |
| `World.WorldService.SnapshotJson` | server/src/game/WorldService.cpp:56-59 | the snapshot is of the current world |
| `ServerInvariants.OnMessageAnswers` | server/src/network/ServerMessageHandler.cpp:31-57 | after a handled message the connection has its player, the response has the request's id and kind, and a snapshot lists all players, that one among them |
| `ServerInvariants.ConnRunsKeeps` | server/src/network/ServerConnectionManager.cpp:51-73 | any other step of a connection keeps table, world and answers in step; closing removes entry and player |
| `ServerInvariants.MessageKeeps` | server/src/network/ServerConnectionManager.cpp:41-49 | so does a message, handled, refused, or too late |
| `ServerInvariants.AcceptKeeps` | server/src/network/ServerConnectionManager.cpp:12-39 | so does accepting a connection, whose id was never used before |
| `ServerInvariants.StopAllKeeps` | server/src/network/ServerConnectionManager.cpp:122-136 | so does stopping everything |
| `ServerInvariants.NextKeepsValid` | server/src/network/ServerConnectionManager.cpp:12-136 | every step of the server keeps the whole invariant |
| `ServerInvariants.RunKeepsValid` | server/src/network/ServerConnectionManager.cpp:12-136 | and so does every run |
| `ServerInvariants.NoOrphanPlayers` | server/src/network/ServerConnectionManager.cpp:12-73 | in every reachable state the players are exactly those of open connections with a handled message, one each; while running the table is exactly the open connections |
| `ServerInvariants.ClosedIsForGood` | shared/src/shared/network/Connection.hpp:209-246 | a connection that closed has no player and no table entry then or ever after, and answers nothing more, whatever still arrives |
| `ServerInvariants.AnswerShowsWorld` | server/src/network/ServerMessageHandler.cpp:36-49 | in every reachable state a handled message appends one answer, and a snapshot in it lists exactly the players of the world as it then is, the requester's own among them |
| `ServerInvariants.OrderedAnswers` | server/src/network/ServerConnectionManager.cpp:41-49 | in every reachable state the responses of a connection answer the messages it read, one each, in order; the ids written are a prefix of the ids read; every snapshot lists all players of the world it was taken of, once each in increasing id order, the requester's own among them; while open and running none is withheld |
| `ServerLaws.HandlesExactly` | server/src/network/ServerMessageHandler.cpp:31-57 | in every reachable state a message on an open connection is answered, the answer posted unless stopped, and reading goes on; only if it needs a player and none is left is the connection closed instead |
| `ServerLaws.AcceptsExactly` | server/src/network/ServerConnectionManager.cpp:12-39 | in every reachable state the accept loop ends when stopped or out of ids, and else adds one started connection under the next, unused id |
| `ServerLaws.StopsExactly` | server/src/network/ServerConnectionManager.cpp:122-136 | in every reachable state stopAll posts a stop to exactly the open connections, the first time |
| `Server.ServerMessageHandler.OnMessage` | server/src/network/ServerMessageHandler.cpp:31-57 | player first, which may throw; then the response to a ping, a snapshot request or a missing payload |
| `Server.ServerMessageHandler.OnDisconnect` | server/src/network/ServerMessageHandler.cpp:59-63 | the player leaves the world |
| `Server.ServerConnectionManager.constructor` | server/src/network/ServerConnectionManager.hpp:39-41 | running, no connections, and the first id will be 1 |
| `Server.ServerConnectionManager.Create` | server/src/network/ServerConnectionManager.cpp:12-39 | nothing once stopped, an exception when the 16-bit counter wraps, else a new connection that lookups under the new id find, no other lookup affected |
| `Server.ServerConnectionManager.Remove` | server/src/network/ServerConnectionManager.cpp:57-90 | removes that entry unless stopped, and says so; a lookup finds nothing afterwards, and every other lookup is as before |
| `Server.ServerConnectionManager.Send` | server/src/network/ServerConnectionManager.cpp:92-104 | posts to that connection if it is in the table |
| `Server.ServerConnectionManager.HandleMessage` | server/src/network/ServerConnectionManager.cpp:41-49 | the world and the posted answer after a message, or an exception and no answer |
| `Server.ServerConnectionManager.HandleDisconnect` | server/src/network/ServerConnectionManager.cpp:51-55 | player and entry both go; once stopped only the player |
| `Server.ServerConnectionManager.StopAll` | server/src/network/ServerConnectionManager.cpp:75-136 | every connection in the table gets a stop, once, and no lookup finds anything any more |
| `Server.ServerConnectionManager.StopEach` | server/src/network/ServerConnectionManager.cpp:132-135 | the loop posts one stop to each connection of the snapshot |
| `Server.ServerConnectionManager.Resume` | server/src/network/ServerConnectionManager.cpp:30-35 | a step of a connection, with its close handler when that closed it |
| `Server.ServerConnectionManager.Deliver` | server/src/network/ServerConnectionManager.cpp:41-49 | a message read, checked for a close meanwhile, handled and answered in one segment |
| `EndToEnd.ArrivalIsNext` | shared/src/shared/network/MessageChannel.hpp:42-58 | a read that completes returns the next message the other side accepted |
| `EndToEnd.ClientRunsKeeps` | client/src/network/ClientRequestManager.cpp:92-190 | the client's own steps keep every message on every link tied to the call its id was issued for |
| `EndToEnd.ServerRunsKeeps` | server/src/network/ServerConnectionManager.cpp:12-136 | so do the server's own steps, accepting included |
| `EndToEnd.PairedKeeps` | server/src/network/ServerConnectionManager.cpp:12-39 | so does one more connection of the client being linked to its end at the server |
| `EndToEnd.RequestArrivesKeeps` | server/src/network/ServerMessageHandler.cpp:31-57 | so does a request that arrives and is answered |
| `EndToEnd.ResponseArrivesKeeps` | client/src/network/ClientRequestManager.cpp:192-215 | so does a response that arrives |
| `EndToEnd.OtherMessageKeeps` | server/src/network/ServerConnectionManager.cpp:41-49 | so does anything another client sends |
| `EndToEnd.RunKeepsValid` | client/src/network/ClientRequestManager.cpp:92-215 | every run of client, wire and server keeps the whole invariant |
| `EndToEnd.LinksDeliverInOrder` | shared/src/shared/network/MessageChannel.hpp:42-78 | in every run each side of a link is given a prefix, in order, of what the other side accepted, and no two connections of the client share a server connection |
| `EndToEnd.EndToEndCorrelation` | client/src/network/ClientRequestManager.cpp:92-132 | in every run a call that got a response got the one the server computed for that call's own message, and returned what it says: a ping its own timestamp, a snapshot request the map and all players of that moment, the caller's own among them; a call that got none throws for what it ended with; the unexpected-payload and internal-error exceptions are unreachable |
| `PingRun.PingCompletes` | client/src/network/ClientRequestManager.cpp:92-111 | some run of client, wire and server ends with a ping that returned its own timestamp |
| `EventBusSpec.TurnWeighsLess` | shared/src/shared/event_bus/AsyncEventBus.hpp:46-55 | a turn of dispatch may lengthen the queue but lowers its weight by exactly one: the weight is the number of turns |
| `EventBusSpec.BusesAgree` | shared/src/shared/event_bus/SyncEventBus.hpp:33-37 | synchronous publishing and asynchronous publishing then dispatching make the same multiset of deliveries |
| `EventBusSpec.BreadthIsCaused` | shared/src/shared/event_bus/AsyncEventBus.hpp:38-55 | the worklist delivers exactly what the queued events cause |
| `EventBusSpec.DepthIsCaused` | shared/src/shared/event_bus/detail/SubscribersStorage.hpp:104-116 | the recursion delivers exactly what the published events cause |
| `EventBusSpec.DispatchIsByGeneration` | shared/src/shared/event_bus/AsyncEventBus.hpp:46-55 | all queued events reach all their subscribers, in order, before anything published meanwhile reaches any |
| `EventBusSpec.CallsInOrder` | shared/src/shared/event_bus/detail/SubscribersStorage.hpp:111-115 | every subscriber of an event is called once, in subscription order |
| `EventBusSpec.ReactionsInOrder` | shared/src/shared/event_bus/detail/SubscribersStorage.hpp:111-115 | what the callbacks publish is in the order of the callbacks |
| `EventBusSpec.PublishIsAStack` | shared/src/shared/event_bus/SyncEventBus.hpp:33-37 | synchronous delivery equals an explicit stack: the subscribers in order, and all that one publishes, delivered the same way, before the next |
| `EventBus.SubscriberStorage.Subscribe` | shared/src/shared/event_bus/detail/SubscribersStorage.hpp:84-102 | refused while publishing or for an empty callback; else last of its event type, no other type affected |
| `EventBus.SubscriberStorage.Clear` | shared/src/shared/event_bus/detail/SubscribersStorage.hpp:118-122 | refused while publishing; else empty |
| `EventBus.SubscriberStorage.EnterPublish` | shared/src/shared/event_bus/detail/SubscribersStorage.hpp:131-134 | the table is frozen once more |
| `EventBus.SubscriberStorage.LeavePublish` | shared/src/shared/event_bus/detail/SubscribersStorage.hpp:135-138 | and once less |
| `EventBus.AsyncEventBus.Publish` | shared/src/shared/event_bus/AsyncEventBus.hpp:38-44 | the event joins the end of the queue |
| `EventBus.AsyncEventBus.Invoke` | shared/src/shared/event_bus/detail/SubscribersStorage.hpp:111-115 | a callback runs while the table is frozen, and what it publishes joins the queue in order |
| `EventBus.AsyncEventBus.Deliver` | shared/src/shared/event_bus/detail/SubscribersStorage.hpp:104-116 | every subscriber of the event is called once in subscription order, and what they publish is queued in that order |
| `EventBus.AsyncEventBus.Dispatch` | shared/src/shared/event_bus/AsyncEventBus.hpp:46-55 | terminates with an empty queue, having delivered what the ideal FIFO worklist does; guard count and table are as before |
| `EventBus.AsyncEventBus.Clear` | shared/src/shared/event_bus/AsyncEventBus.hpp:57-61 | empties table and queue, or refuses and changes neither |
| `EventBus.SyncEventBus.Publish` | shared/src/shared/event_bus/SyncEventBus.hpp:33-37 | returns after the whole cascade, having delivered depth-first, subscribers in order; guard count and table are as before, also when called from a callback |
| `EventBus.SyncEventBus.Invoke` | shared/src/shared/event_bus/detail/SubscribersStorage.hpp:111-115 | a callback with all it publishes |
| `StateStack.ApplySplits` | client/src/states/StateManager.cpp:84-113 | applying changes is a left fold: a batch is its two halves one after the other, and nothing after a failure is touched |
| `StateStack.ResetForgets` | client/src/states/StateManager.cpp:95-103 | after a reset nothing of what was there before matters |
| `StateStack.PopsUndoPushes` | client/src/states/StateManager.cpp:91-111 | as many pops as pushes before them restore the stack |
| `StateStack.AppliesUnlessLastIsPopped` | client/src/states/StateManager.cpp:104-108 | a batch is applied to the end exactly when none of its pops meets the last state |
| `StateStack.FailsAtFirstSuchPop` | client/src/states/StateManager.cpp:84-113 | a failing batch stops at the first such pop, leaves exactly what follows it queued, and on the stack the last reset's state or else the old bottom |
| `StateStack.InteractiveAfterFailure` | client/src/states/StateManager.cpp:104-116 | after any failing batch only the top is interactive exactly when the one state left was enabled before; if only the top was interactive before and nothing was reset, exactly when the bottom was the top |
| `StateStack.TwoPopsLeaveADisabledTop` | client/src/states/StateManager.cpp:104-116 | two states and two pops leave a disabled top and an empty queue |
| `StateManagement.UiComponent.Mount` | client/src/ui/UiComponent.cpp:20-23 | one more mounted root |
| `StateManagement.UiComponent.Unmount` | client/src/ui/UiComponent.cpp:25-28 | one mounted root less |
| `StateManagement.UiComponent.SetInteractive` | client/src/ui/UiComponent.cpp:30-33 | enables or disables that root only |
| `StateManagement.RootsOfAll` | client/src/states/StateManager.cpp:91-111 | the roots that have to be mounted count every state of the stack once |
| `StateManagement.AskedInOrder` | client/src/states/StateManager.cpp:59-67 | what states ask for during an update is queued in the order of the states |
| `StateManagement.StateManager.constructor` | client/src/states/StateManager.cpp:10-21 | one mounted, interactive state |
| `StateManagement.StateManager.Create` | client/src/states/StateManager.cpp:10-21 | the same, or an exception for a missing state that touches nothing |
| `StateManagement.StateManager.RequestPush` | client/src/states/StateManager.cpp:23-30 | queued last, or an exception for a missing state |
| `StateManagement.StateManager.RequestResetTo` | client/src/states/StateManager.cpp:32-39 | queued last, or an exception for a missing state |
| `StateManagement.StateManager.RequestPop` | client/src/states/StateManager.cpp:41-44 | queued last |
| `StateManagement.StateManager.FirstUpdatedState` | client/src/states/StateManager.cpp:118-126 | the lowest state that all those above it let updates through to |
| `StateManagement.StateManager.FirstRenderedState` | client/src/states/StateManager.cpp:128-136 | the lowest state that all those above it let drawing through to |
| `StateManagement.StateManager.HandleNetworkResult` | client/src/states/StateManager.cpp:51-57 | the states told are those reached by updates, bottom up |
| `StateManagement.StateManager.Update` | client/src/states/StateManager.cpp:59-67 | the reached states are updated bottom up, then everything queued before or asked for meanwhile is applied |
| `StateManagement.StateManager.Render` | client/src/states/StateManager.cpp:69-75 | the states drawn are those reached, bottom up |
| `StateManagement.StateManager.ApplyPendingChanges` | client/src/states/StateManager.cpp:77-116 | stack, queue and exception are those of the fold; the stack is never empty and mounted are exactly its roots; after a completed change exactly the top root is interactive, after a failure nothing was refreshed |
| `StateManagement.StateManager.ApplyChange` | client/src/states/StateManager.cpp:89-112 | one change, with the UI following |
| `StateManagement.StateManager.UnmountAll` | client/src/states/StateManager.cpp:97-100 | exactly the roots of the stack are unmounted |
| `StateManagement.StateManager.RefreshInteractivity` | client/src/states/StateManager.cpp:138-144 | exactly the top root is interactive, other widgets are not touched |
| `NetworkResults.NetworkComponent.Publish` | client/src/network/NetworkComponent.cpp:144-148 | joins the waiting results last |
| `NetworkResults.ResultTells` | client/src/network/NetworkComponent.cpp:93-127 | what is published is the response exactly when the server answered this kind of request, and then says exactly what it answered; otherwise an error for the right operation and cause |
| `NetworkResults.NetworkComponent.RequestFinished` | client/src/network/NetworkComponent.cpp:93-127 | a finished request publishes exactly one result, the response or its error |
| `NetworkResults.NetworkComponent.DrainResults` | client/src/network/NetworkComponent.cpp:134-142 | hands over all that waits; the batches handed over so far followed by what waits are always the publish order |
| `NetworkResults.OneResultPerCall` | client/src/network/NetworkComponent.cpp:93-148 | over every interleaving of client, handlers and drains, the request results handed over and waiting are one for each handled call, in the order the calls finished, each telling of its own call; and every finished call can be handled |

## Left out

- Boost.Asio internals, sockets, clocks, threads and memory orders: represented by posted tasks, suspended coroutines, one-shot timers and byte streams that can end or fail.
- Allocation failures and exceptions of `asio::post`, with the catch blocks for them.
- Timer errors other than cancellation ("Pending request wait failed", "Failed to wait for client disconnect"): the runtime raises none.
- Protobuf encoding and the JSON text of snapshots: replaced by the assumed round trip and by the listed players.
- World.WorldState.MovePlayer: coordinates are unbounded integers; overflow of `int` is undefined in the source and assumed away.
- `ServerConnectionManager::broadcast` and calls of `remove` from outside: not used by the server.
- TcpServer.cpp beyond "create, then start; end when create returns nothing or throws". A server run therefore ends accepting when the 16-bit connection counter wraps; `create` called again after that is not modelled.
- Server.ServerConnectionManager.Resume: states the effect on one connection, the table and the world. There is no object that owns all the server's connections at once; whole runs of the server are proved on the state machine only.
- Client.ClientLoop.Run: the fields `disconnections`, `begun` and `returned` and the list of requests are bookkeeping of the model and have no counterpart in the source.
- Connections.Connection.constructor: the exceptions for a missing handler and for limits of zero are not modelled; the configuration is taken as validated.
- Client.ConnectionManager.Connect: connect timeouts and socket errors are one outcome, "failed"; the texts of exceptions are not modelled, except for the reasons of failed requests.
- NetworkResults.NetworkComponent.RequestFinished: the text of a published error is left out; the published error carries what the request failed with instead.
- Event buses: callbacks that subscribe, clear or dispatch from inside a callback, and moving a `SubscriberStorage`. Callbacks only publish, and what they publish depends only on the event received; the event-type index is a given number.
- EventBus.AsyncEventBus.Dispatch: needs finite cascades, as a rank that decreases from every event to what its subscribers publish; without it the source's loop does not end.
- StateManagement.StateManager.Update: the answers of `updatesBelow` and `drawsBelow` are fixed per state, and what a state asks of the manager during its update depends on that state only.
- Window events, rendering, panels, ClientConsoleState, Application, Logger, Vec and the validation of the configuration: they would only add easy members.
