# netsvr-business-go: a model of its connection pool, framing, routing and merging

netsvr-business-go is the client side of a WebSocket gateway. A business process borrows TCP connections
to one or more gateways from bounded pools, writes length-prefixed requests on them, reads replies, and
merges what several gateways answer. This project models the four protocols below the method wrappers and
proves what they promise.

- **Framing** (`Framing`, `Transfer`, `Sockets`): packets with a 4-byte length, the write loop with its
  "has the stream been polluted" test, reads in arbitrary pieces, and the socket object with its flag. The
  network chooses how much every read and write moves and when it fails.
- **The pool** (`TaskPool`, `TaskPoolOwnership`, `TaskPoolAlignment`, `TaskPoolWakeup`, `TaskPoolClosing`,
  `TaskPoolLoops`, `TaskPoolSolo`, `TaskPoolScenarios`, `TaskPoolSpoiled`): any number of goroutines, the heartbeat and closers as a step
  machine with one step per channel operation, flag test, write or read. A run is any interleaving with any
  behaviour of the network. Conservation, ownership and the exact conditions hold of every run; the alignment
  of replies and queries holds of every clean run, one in which no one-way `Send` fails to set its deadline
  after a short write. The gateway answers each query frame it finds in the bytes once and in order, and
  answers nothing else.
- **The same objects used by one goroutine** (`TaskSockets`, `NetBuses`): classes with the fields of the
  program, for the loops of the heartbeat, of `Close`, of all-or-nothing acquisition, and for the
  borrow, send, receive, release pattern that every query and every send repeats. `TaskPoolSolo` proves that one
  thread of the step machine, moving alone, does what these methods do.
- **Routing** (`Address`, `Routing`, `Unicast`, `FanOut`): the gateway prefix of a uniqId, the grouping and
  splitting of requests by it, and queries fanned out to several gateways.
- **Merging** (`Results`, `KeyedResults`): the result types of package `ret`. Go visits a map in an
  arbitrary order; the order is a parameter, any list of the keys, and what is proved holds for all of them.
- **Unregistering** (`Baton`): the unregistering caller, the heartbeat loop and the receive loop of a main
  socket with the channel they share, again as a step machine, beside a gateway that answers the requests on a
  connection in order and sends events only to a registered process.

The headline is `TaskPoolAlignment.RepliesAnswerTheirQueries`: in every clean run the bytes a query is about
to unmarshal are the gateway's answer to that very query, although the result of `Send` is ignored, several
goroutines share the pool, and connections are reused after timeouts. The hypothesis is needed:
`TaskPoolSpoiled.WrongAnswer` is a run from a new pool, with one `Send` that is not clean, in which a caller is
handed the answer to another query.

Where the code falls short of what it or its comments promise, the code is modelled as it is, a concrete
run or input is exhibited, and the exact condition is proved:

| promise | fails at | holds exactly when |
|---|---|---|
| a packet written is the packet read | messages of 2^32 bytes and more (`FrameExact`) | the message is shorter |
| a `Send` that returns false has closed a polluted connection | `SpoiledWire`, `SpoiledConnection`, `WrongAnswer` | the deadline does not fail after a short write (`SendExact`, `LiveWireIsWhole`, `StepAligned`) |
| a waiting borrower gets a connection once all others are back | `StrandedWaiter` | some connection ever dialled is still up; without one it is stuck unless the wait has a timeout (`StrandedExactly`, `TimeoutFrees`) |
| a pool can be closed twice | `DoubleClose` | no call of `Close` begins while another is between its test and its mark (`ClosingExactly`); a panic is then impossible (`TurnsNeverCrash`) |
| the heartbeat has stopped before `Unregister` writes (comment at mainSocket/mainSocket.go:205) | `HeartMayOutliveHandshake` | the heartbeat took the token before the caller took it back (`HeartStoppedExactly`) |
| an `Unregister` that has sent its request returns | `RegisterSwallowsReply` | the reply is not lost with a connection and not the next message for a `Register` after a reconnect (`ReturnsExactly`) |
| splitting a bulk unicast changes nothing | `SplittingReorders`: an item that lists a uniqId twice with different data | no item does, or the gateway goes through the ids first, or there is one gateway (`SplittingPreserves`) |
| a query to one gateway reports the same as a split one | `FirstIdDecides`: a first uniqId of no registered gateway | the first uniqId is that gateway's, or none would have been reported anyway (`SinglePointExactly`) |
| `Get` and `ToMap` return the same item | `GetDiffersFromToMap`: two gateways with different items for one connection | no two gateways list it with different items (`AgreeExactly`) |

The runs in the second row need a write that returns short without an error. The write loop provides for it
(socket/socket.go:129-139) and the model keeps it; the usual contract of a Go `Write` forbids it, and then the
loop has a single turn.

## Model

| member | source | states |
|---|---|---|
| `Framing.U32RoundTrip` | socket/socket.go:108 | the header read back is the length modulo 2^32, as the conversion to uint32 truncates it |
| `Framing.HeaderBytes` | socket/socket.go:105-110 | each of the four header bytes as a number: the length divided by 2^24, 2^16, 2^8 and 1, modulo 256, in this order, and then the message |
| `Framing.NeedBytes` | socket/socket.go:171-180 | the reader takes the four header bytes for the number they spell with the most significant byte first |
| `Framing.RoundTrip` | socket/socket.go:105-110 | reading the concatenated frames of any messages below 2^32 bytes, followed by any bytes, gives back those messages and then whatever the rest contains |
| `Framing.FrameExact` | socket/socket.go:106-110 | one frame reads back as its message if and only if the message is below 2^32 bytes |
| `Framing.DecodeIsFaithful` | socket/socket.go:171-188 | the frames found in any stream and the bytes left over are exactly the stream |
| `Framing.DecodeAppend` | socket/socket.go:171-188 | a reader may stop anywhere and go on when more bytes come: how the stream is cut does not matter |
| `Framing.FramesOnlyGrow` | socket/socket.go:171-188 | whatever is appended to a wire, the frames already on it stay |
| `Framing.PrefixOfStream` | socket/socket.go:171-188 | any byte prefix of a stream of frames decodes to a prefix of the messages |
| `Framing.WireGrows` | socket/socket.go:129-139 | continuing a partly written frame changes the list of whole frames only when its last byte goes out, and then by that message |
| `Transfer.WriteTurn` | socket/socket.go:122-152 | one turn of the write loop never leaves the frame and goes on only while bytes are missing; it fails with the connection up exactly when the deadline cannot be set or a write times out with no byte of the frame out |
| `Transfer.SendRunVerdict` | socket/socket.go:114-153 | for every series of short writes and errors: true exactly when the last byte went out in an error-free write; false with the connection up exactly when the last event is a failed deadline, or a timed-out write with no byte out; false with the connection closed exactly on any other write error; the first of these has put no byte out exactly when the deadline did not fail after a short write |
| `Transfer.SendRunEvents` | socket/socket.go:114-153 | for every series of events: the loop ends at the first turn that fails or completes the frame, and exactly the bytes the network has taken by then are out |
| `Transfer.SendByEvents` | socket/socket.go:105-154 | the whole outcome of a Send on an open connection told by the events alone: last turn, bytes on the wire, result, and whether the connection is still up |
| `Transfer.FaultFreeSends` | socket/socket.go:105-154 | on a network without failures a Send puts the whole frame on the wire, however the writes are cut |
| `Transfer.SendExact` | socket/socket.go:103-154 | true puts one whole frame on the wire; false with the connection up puts nothing there if and only if the deadline did not fail after a short write |
| `Transfer.SpoiledWire` | socket/socket.go:122-126 | the run that breaks the promise: a one-byte write, then a deadline error, leaves a live connection with part of a frame |
| `Transfer.LiveWireIsWhole` | socket/socket.go:105-154 | after any series of sends on a connection that is still up, the wire is the concatenation of the frames whose Send returned true, and decodes to those messages with nothing left over, if and only if no deadline failed after a short write |
| `Transfer.WireExcess` | socket/socket.go:122-126 | every spoiled send leaves bytes on a live wire that belong to no delivered frame |
| `Transfer.RecvTurn` | socket/socket.go:172-181 | one read of any size advances through the frame being read and stays inside it |
| `Transfer.RecvExact` | socket/socket.go:171-188 | what Receive returns is the first frame of the stream however the reads are cut, and without a read error it returns it whenever it is there |
| `Transfer.ReceiveManyIsDecode` | socket/socket.go:157-189 | repeated receives return exactly the whole frames of the stream, whatever the chunking |
| `Transfer.SentIsReceived` | socket/socket.go:105-189 | if no deadline failed after a short write, what the peer receives on a live connection is the list of messages whose Send returned true, in order |
| `Sockets.ReadFull` | socket/socket.go:172-181 | io.ReadFull in pieces of any size reads on to the target or reports an error, and stays in step with the run of the read loop |
| `Sockets.Socket.constructor` | socket/socket.go:46-55 | a new socket is not connected |
| `Sockets.Socket.CloseConn` | socket/socket.go:66-70 | drops the flag and the connection only if connected |
| `Sockets.Socket.Close` | socket/socket.go:73-78 | whatever the flag was, it ends at not connected |
| `Sockets.Socket.Connect` | socket/socket.go:81-101 | true exactly when the socket was not connected, the dial succeeded and no Close came during the dial, then with an empty wire and the flag up; otherwise nothing has changed |
| `Sockets.Socket.Send` | socket/socket.go:105-154 | puts on the wire exactly the bytes the network takes up to the turn that ends the loop, the first that fails or completes the frame; true exactly when that turn has not failed; false with the connection still up if and only if that turn was a failed deadline, or a timed-out write with no byte of the frame out; nothing happens on a closed connection |
| `Sockets.Socket.Receive` | socket/socket.go:157-189 | returns the next frame's body and consumes exactly that frame, or nil, and nil leaves the connection down; a body needs an open connection, a deadline that could be set and a whole frame, and with those and no read error there is one |
| `TaskPoolOwnership.OwnedStep` | taskSocket/taskSocketPool.go:58-157 | every step of every thread keeps: tokens, queue and hands add up to the size; every connection that is up has exactly one owner; queued ones are up |
| `TaskPoolOwnership.OwnedRun` | taskSocket/taskSocketPool.go:58-157 | the same over every run |
| `TaskPoolOwnership.PoolConservation` | taskSocket/taskSocketPool.go:44-115 | in every reachable state tokens plus idle connections plus what threads have in hand is the configured size |
| `TaskPoolOwnership.SendsNeverBlock` | taskSocket/taskSocketPool.go:65-105 | a thread about to send on `pool` or on `size` always finds room |
| `TaskPoolOwnership.ExclusiveOwnership` | taskSocket/taskSocketPool.go:57-115 | in every reachable state a connection that is up has exactly one owner: it is once in the queue or held by exactly one thread; every queued one has its flag at connected |
| `TaskPoolOwnership.GetIsFreshAndUp` | taskSocket/taskSocketPool.go:58-88 | Get never hands out a connection whose flag is down or that anybody else can reach |
| `TaskPoolOwnership.OpenWithinSize` | taskSocket/taskSocketPool.go:35-50 | open connections never exceed the pool size |
| `TaskPoolOwnership.DownForever` | taskSocket/taskSocketPool.go:90-96 | a connection that is down stays down and is never idle again, whatever runs afterwards |
| `TaskPoolAlignment.StepAligned` | netBus.go:754-764 | from an aligned state a step keeps every connection's requests and replies aligned if and only if it is not a one-way Send whose deadline fails after a short write |
| `TaskPoolAlignment.AlignedRun` | netBus.go:304-317 | alignment over every clean run, one without that event |
| `TaskPoolAlignment.RepliesAnswerTheirQueries` | netBus.go:304-317 | in every clean run, the body about to be unmarshalled is the gateway's answer to that very query: the query is the last on its connection, the body is its reply, and nothing is left unread |
| `TaskPoolAlignment.PooledConnectionsAreSettled` | taskSocket/taskSocketPool.go:90-115 | in every clean run, a connection in the pool is up, its wire is whole frames, every query on it is answered and every reply read |
| `TaskPoolAlignment.NilReceiveIsFinal` | socket/socket.go:164-187 | after a Receive that returned nil the connection is down and never in the pool again |
| `TaskPoolAlignment.WriteConn` | netBus.go:305 | one write of a borrower leaves its connection in step with what the borrower does next, also when the send fails and the result is ignored |
| `TaskPoolAlignment.ReadConn` | netBus.go:306 | one read of a borrower takes bytes of the reply to its own query only |
| `TaskPoolWakeup.HealthyRun` | taskSocket/taskSocketPool.go:58-115 | a fault-free run keeps every connection up and every waiter facing a missing token |
| `TaskPoolWakeup.NoLostWakeup` | taskSocket/taskSocketPool.go:58-96 | in a fault-free run of a pool of size one or more, while a caller waits, the queue is not empty or another thread has a connection in hand or is dialling one; a token on its way back would not do |
| `TaskPoolWakeup.WaiterIsServed` | taskSocket/taskSocketPool.go:75-88 | once all borrowers of such a run have returned, the waiting caller can go on |
| `TaskPoolWakeup.StrandedExactly` | taskSocket/taskSocketPool.go:75-96 | in every run, once nobody else has anything in hand, a waiting caller can take a connection if and only if some connection ever dialled is still up, and has no step to take if and only if none is and the wait has no timeout |
| `TaskPoolWakeup.TimeoutFrees` | taskSocket/taskSocketPool.go:79-87 | with a timeout no waiter is ever stuck, in any state of any run |
| `TaskPoolWakeup.WaiterStuck` | taskSocket/taskSocketPool.go:75-87 | a waiter has no step to take if and only if the queue is empty and the wait has no timeout |
| `TaskPoolWakeup.WaitStarts` | taskSocket/taskSocketPool.go:59-75 | a caller starts to wait if and only if its len test sees a connection or its select finds no token; while a token is left, one that found the queue empty dials |
| `TaskPoolWakeup.WaitsForAReason` | taskSocket/taskSocketPool.go:58-88 | in every run from a new pool, a waiting caller began to with a step at which the queue was not empty or no token was left, and has waited ever since |
| `TaskPoolClosing.MarksRun` | taskSocket/taskSocketPool.go:142-146 | along every run the pool is closed once it has been marked, and every mark after the first costs one goroutine |
| `TaskPoolClosing.CrashedExactly` | taskSocket/taskSocketPool.go:142-146 | in every run from a new pool some goroutine has panicked if and only if the pool has been marked as closed more than once; each mark after the first costs one goroutine |
| `TaskPoolClosing.ClosingExactly` | taskSocket/taskSocketPool.go:141-157 | for every run from a new pool: no call of Close has begun while another was between its test and its mark if and only if nobody has panicked and the pending calls, going on alone, cannot make anybody panic |
| `TaskPoolClosing.OrderExactly` | taskSocket/taskSocketPool.go:141-157 | along every run from any state: at most one goroutine is about to set the mark, none once it is set and nobody has panicked, at the end if and only if that holds at the start and Close is called one at a time |
| `TaskPoolClosing.TurnsNeverCrash` | taskSocket/taskSocketPool.go:141-157 | when Close is called only while no other call is between its test and its mark, nobody panics and the pool is marked at most once |
| `TaskPoolClosing.OverlapCrashes` | taskSocket/taskSocketPool.go:142-146 | from every state with two goroutines between test and mark, both can mark and the second panics |
| `TaskPoolClosing.DoubleClose` | taskSocket/taskSocketPool.go:142-146 | the run from a new pool in which two goroutines close it at the same time and one panics |
| `TaskPoolScenarios.StrandedWaiter` | taskSocket/taskSocketPool.go:75-96 | a run from a new pool after which a waiter has no step to take: its borrower's connection was lost and the token woke nobody |
| `TaskPoolScenarios.SizeIsReached` | taskSocket/taskSocketPool.go:35-71 | for every pool and every number up to its size, some run from a new pool has that many connections up, held by as many threads |
| `TaskPoolSolo.GetAlone` | taskSocket/taskSocketPool.go:58-88 | from every owned state a thread moving alone gets the oldest idle connection, else a new one for a token if the dial succeeds, else nothing with the pool as before, if a token is left or the wait has a timeout; otherwise it has to wait |
| `TaskPoolSolo.ReleaseAlone` | taskSocket/taskSocketPool.go:90-96 | moving alone, a thread puts a connection that is up at the end of the queue and gives a token back for one that is down |
| `TaskPoolSolo.SendAlone` | socket/socket.go:114-153 | the write steps of a thread moving alone come to exactly the run of the write loop, for every series of events |
| `TaskPoolSolo.BeatAlone` | taskSocket/taskSocketPool.go:98-115 | on an open pool, the heartbeat of a thread moving alone writes the message to every idle connection once; exactly those to which it went out stay, in their order, the others are closed and their tokens are back; no other connection changes |
| `TaskPoolSolo.CloseAlone` | taskSocket/taskSocketPool.go:141-157 | the Close of a thread moving alone empties the queue, closes exactly the idle connections and gives their tokens back; on a closed pool nothing happens |
| `TaskPoolLoops.HeartbeatTurns` | taskSocket/taskSocketPool.go:98-115 | under any interference, a heartbeat that does not see the pool closed takes one turn per connection that was idle when it began, and ends with the next |
| `TaskPoolLoops.CloseTurns` | taskSocket/taskSocketPool.go:146-155 | under any interference, the loop of Close takes one turn per unit of capacity, and ends with the next |
| `TaskPoolLoops.HeartbeatCanEnd` | taskSocket/taskSocketPool.go:99-102 | once the pool is closed every heartbeat can end by its own steps, wherever in its loop it is |
| `TaskPoolSpoiled.SpoilRun` | socket/socket.go:122-126 | in every pool of size one, for every one-way message, every place of the cut and every query: a run from a new pool puts the query behind part of another frame, and a prefix of it ends with everybody idle and, in the queue, a connection that is up and not settled |
| `TaskPoolSpoiled.SpoiledConnection` | socket/socket.go:122-126 | such a run from a new pool after which the gateway does not find the query in the stream |
| `TaskPoolSpoiled.WrongAnswer` | netBus.go:304-317 | such a run, not clean, after which a caller is about to unmarshal the answer to a query it did not ask |
| `TaskPoolScenarios.QueryCanComplete` | netBus.go:304-317 | a query that is on the wire can be answered with any body the gateway may give, its Receive then returns it, and the caller goes on with the connection |
| `TaskSockets.Pool.constructor` | taskSocket/taskSocketPool.go:36-50 | a new pool has all its tokens and no connection |
| `TaskSockets.Pool.Get` | taskSocket/taskSocketPool.go:58-88 | lends the oldest idle connection, else dials with a token, else nil with the pool as before |
| `TaskSockets.Pool.Release` | taskSocket/taskSocketPool.go:90-96 | a connected socket goes to the end of the queue, otherwise one token comes back |
| `TaskSockets.Pool.BeatOnce` | taskSocket/taskSocketPool.go:103-110 | the oldest idle connection gets exactly one heartbeat frame and goes to the end of the queue, or is closed and its token comes back |
| `TaskSockets.BeatsByEvents` | taskSocket/taskSocketPool.go:104 | a heartbeat counts as gone out exactly when the turn that ends its write loop has not failed |
| `TaskSockets.Pool.BeatNext` | taskSocket/taskSocketPool.go:99-114 | one turn of the loop keeps: tested connections beaten once, the others untouched, survivors in order |
| `TaskSockets.Pool.Heartbeat` | taskSocket/taskSocketPool.go:98-115 | on an open pool every idle connection is tested once in queue order; the queue ends as the survivors in their original order and tokens have grown by the number dropped |
| `TaskSockets.Pool.Close` | taskSocket/taskSocketPool.go:141-157 | empties the queue, closes every idle connection and gives all their tokens back; a second call does nothing and touches no connection |
| `TaskSockets.Manger.constructor` | taskSocket/taskSocketPoolManger.go:27-31 | no pools |
| `TaskSockets.Manger.AddSocket` | taskSocket/taskSocketPoolManger.go:43-45 | the pool is registered under the hex key of its own address and replaces the one there; still no two pools have the same address |
| `TaskSockets.Manger.Count` | taskSocket/taskSocketPoolManger.go:48-50 | the number of different gateway addresses registered: one registered twice counts once |
| `TaskSockets.Manger.GetSocket` | taskSocket/taskSocketPoolManger.go:70-76 | a connection of that gateway's pool, the oldest idle one if there is one and else a newly dialled one, exactly when the gateway is registered and its pool can lend one; nothing has been written to it yet and no connection is changed |
| `TaskSockets.Manger.GetSockets` | taskSocket/taskSocketPoolManger.go:53-67 | one connection from every pool exactly when every pool can lend one; otherwise none: every connection taken meanwhile is back at the end of its own pool's queue, the other pools are as they were, and no connection is changed |
| `TaskSockets.Acquire` | taskSocket/taskSocketPoolManger.go:54-65 | stops at the first pool that cannot lend, having taken exactly the connection each pool before it offered, the head of the queue or a new one, and nothing from the others |
| `TaskSockets.ReleaseAll` | taskSocket/taskSocketPoolManger.go:58-60 | every connection held goes back to the pool it came from: it is at the end of that queue if it is connected, otherwise the token is back; the other pools are as they were |
| `NetBuses.Exchange` | netBus.go:305-309 | the query is written to the connection and the result of Send ignored; the reply is the next frame and exactly that frame is consumed; nil leaves it down |
| `NetBuses.OutcomeByStream` | netBus.go:304-309 | a reply is the frame at the front of the bytes that arrive and needs a connection, a deadline that could be set and a Send that has not closed the connection; with those and no read error there is one exactly when a whole frame arrives |
| `NetBuses.SendUseByEvents` | socket/socket.go:114-153 | what a one-way send writes and whether the connection stays up, told by the events of its write loop |
| `NetBuses.DeliversQuery` | netBus.go:304-309 | on a network that delivers, the whole query is written and there is a reply exactly when a frame arrives |
| `NetBuses.QueryPool` | netBus.go:271-289 | the query has been written to the connection lent, old or new, and exactly the frame of the reply read from it; a reply is the frame at the front of what arrives, and on a network that delivers there is one exactly when a whole frame arrives; the connection is back at the end of the queue exactly when there was a reply; no other connection of the pool is touched and the caller ends up holding nothing |
| `NetBuses.SendPool` | netBus.go:775-781 | one Send of the message, a whole frame on a network that delivers, on the oldest idle connection or on a new one, which then goes to the end of the queue unless the Send polluted it; no other connection is touched, and nothing changes when the pool cannot lend |
| `NetBuses.NetBus.QueryOne` | netBus.go:271-288 | a query to one gateway: nothing when it is not registered or cannot lend, else the query has been written to the connection lent, the reply is the frame at the front of what arrives, there on a network that delivers exactly when a whole frame arrives, and the connection is back in the queue exactly when there was a reply; no other connection is touched |
| `NetBuses.NetBus.SendToSocketByKey` | netBus.go:775-781 | the connection that gateway's pool lends, old or new, gets the bytes of one Send and is back in the queue unless the Send polluted it; no other connection is touched; nothing happens for an unknown gateway |
| `NetBuses.NetBus.SendToSockets` | netBus.go:754-764 | the connection every pool lends, old or new, gets the bytes of one Send, or none gets anything when some pool cannot lend; on both paths each connection borrowed is back at the end of its own queue if it is up, and no other connection is touched |
| `NetBuses.NetBus.QueryAll` | netBus.go:295-319 | when every pool can lend, every connection lent gets the query and the result has exactly the replies read, each under its own gateway's address; otherwise no connection gets anything and the result is empty; on both paths each connection borrowed is back at the end of its own queue if it is up, and no other connection is touched |
| `NetBuses.QueryGroups` | netBus.go:270-291 | each gateway asked gets its own question on the connection its pool lends, old or new; the result has exactly the replies read, each under its gateway's address, and a gateway that lends nothing has no entry; each connection is back at the end of its queue exactly when it gave a reply, and no other connection is touched |
| `NetBuses.SendGroups` | netBus.go:93-95 | the connection each gateway's pool lends, old or new, gets the bytes of one Send of that gateway's own message (also netBus.go:214-216) and is back at the end of its queue unless the Send polluted it; no other connection is touched |
| `NetBuses.SendTurn` | netBus.go:93-95 | one turn of that loop writes one gateway's message to the connection its pool lends, gives it back, and changes nothing the others hold or have got back |
| `NetBuses.QueryTurn` | netBus.go:270-290 | the same for one exchange of the query loop |
| `NetBuses.FileAllFiles` | netBus.go:304-317 | the result map holds exactly each gateway's reply, or nothing for a gateway without one |
| `Address.AddrConvertToHex` | contract/func.go:27-38 | twelve hex digits that spell, high digit first, the four bytes of the address, then the high and the low byte of the port truncated to 16 bits |
| `Address.HexSpells` | contract/func.go:37 | byte i of any buffer is 16 times the value of character 2i plus the value of character 2i+1, by character codes, and every character is one of 0-9, a-f |
| `Address.HexInjective` | contract/func.go:37 | the hex text determines the bytes |
| `Address.KeyIsExact` | contract/func.go:27-38 | two gateways share a key if and only if they have the same IPv4 address and the same 16-bit port |
| `Address.RoutedHome` | contract/func.go:41-47 | a uniqId is routed to the key under which the gateway that assigned it is registered, to no other gateway's, and an id of another length to none |
| `Routing.GroupByAddr` | netBus.go:792-799 | a group for exactly the prefixes that occur, each holding the ids with its prefix in their order |
| `Routing.GroupsPartition` | netBus.go:792-799 | each id is in the group of its own prefix as often as in the input and in no other group |
| `Routing.GroupIsSubsequence` | netBus.go:792-799 | each group is the subsequence of the input at exactly the positions with its prefix |
| `Routing.ForceOffline` | netBus.go:206-217 | each registered gateway is sent the whole list when it is the only one, else its group, and nobody else anything, for every order of the group map |
| `Routing.ReachesHome` | netBus.go:206-217 | on both paths an id reaches its own gateway if and only if it is in the request and that gateway is registered |
| `Routing.SplitDegenerates` | netBus.go:206-217 | when all ids share one registered gateway both paths send it the whole request and nobody else anything |
| `Unicast.Split` | netBus.go:83-92 | the nested loop gives every gateway one item per id of its own, in order, with the item's data |
| `Unicast.SingleCastBulk` | netBus.go:73-96 | what each registered gateway is sent on the single-point and on the split path, for every order of the bulk map; unregistered gateways are dropped |
| `Unicast.SplitDelivers` | netBus.go:82-92 | from its own gateway's bulk a connection receives all the data of every item as often as the item lists it, from any other bulk nothing |
| `Unicast.GivenEqual` | netBus.go:71-72 | data first and ids first give a connection the same if and only if it is listed at most once or all data are equal |
| `Unicast.SplittingPreserves` | netBus.go:71-96 | splitting preserves the data sequence of a connection of a registered gateway if and only if there is one gateway, or it goes through the ids first, or no item lists the connection twice with different data |
| `Unicast.SplittingReorders` | netBus.go:71-96 | the item with two data that lists a connection twice: sent whole, the gateway that goes through the data first delivers 1, 1, 2, 2; split, 1, 2, 1, 2 |
| `FanOut.Query` | netBus.go:245-292 | for every order of the groups: the reply of every gateway that was asked and answered, under its address, and nothing else |
| `FanOut.HasAt` | ret/checkOnlineRet.go:31-38 | an id is reported exactly when its own gateway was asked about it, answered, and has it online |
| `FanOut.FanOutRefinesWhole` | netBus.go:270-291 | with several gateways an id is reported if and only if it was asked for, its gateway is registered and answered, and it is online there |
| `FanOut.SinglePointExactly` | netBus.go:250-268 | with one gateway the same holds of all ids if and only if the first id is the gateway's own, or it does not answer, or none of the ids is online there |
| `FanOut.FirstIdDecides` | netBus.go:250-268 | a request to the only gateway whose first id is of no gateway: a connection that is online there and asked for is not reported |
| `FanOut.RepliesAreDisjoint` | netBus.go:626-653 | no two ConnInfo replies are about the same connection, so Get and ToMap agree for every pair of map orders |
| `Results.DedupConcat` | ret/helper.go:21-30 | deduplicating a concatenation is deduplicating the parts and dropping from the second what is in the first |
| `Results.DedupIsFirstPlaces` | ret/helper.go:21-30 | what is kept are the elements at their first places, in increasing order of place, and no element is missing |
| `Results.DedupComposes` | ret/helper.go:21-30 | deduplicating a part first changes nothing |
| `Results.DedupAppend` | ret/helper.go:21-30 | for any dst and seen: the unseen items are appended, each once at its first occurrence, and all items are recorded in seen |
| `Results.AppendKeepsSeen` | ret/helper.go:19-30 | if seen is the set of elements of a duplicate-free dst that stays true, and the result is the first-occurrence deduplication of dst followed by src |
| `Results.AnyOrderPermutes` | ret/checkOnlineRet.go:42-52 | the order in which gateways are visited only permutes a merged list |
| `Results.ConcatAt` | ret/checkOnlineRet.go:31-52 | in the merged list an element of one gateway comes after all lists visited before it, at its own place |
| `Results.CustomerIds` | ret/customerIdListRet.go:31-38 | the first-occurrence deduplication of all gateways' lists in the order visited |
| `Results.HasId` | ret/customerIdListRet.go:41-48 | true exactly when some gateway lists the id (also ret/checkOnlineRet.go:31-38) |
| `Results.CustomerCount` | ret/customerIdListRet.go:51-59 | the number of distinct ids in the union |
| `Results.ThreeViews` | ret/customerIdListRet.go:31-59 | the merged list is duplicate-free, as long as Len says for any order, contains exactly what Has finds, and has the same elements for every order |
| `Results.OnlineIds` | ret/checkOnlineRet.go:42-52 | the gateways' lists one after the other |
| `Results.OnlineCount` | ret/checkOnlineRet.go:55-61 | the length of the merged list of every order of visit |
| `Results.PlainMergeNoDup` | ret/checkOnlineRet.go:40-52 | the merge that does not deduplicate has no duplicates if and only if no gateway lists an id twice and no two list the same id |
| `KeyedResults.GetUnder` | ret/topicUniqIdListRet.go:31-41 | what the gateways list under one key, one after the other (also ret/connInfoByCustomerIdRet.go:40-48) |
| `KeyedResults.UnderIsConcat` | ret/topicUniqIdListRet.go:31-54 | the list of one key is the concatenation of its lists at the gateways visited |
| `KeyedResults.MergeKeyed` | ret/topicUniqIdListRet.go:46-54 | for every inner map order, a key is present exactly when some gateway lists it, with the very list the single-key form returns (also ret/connInfoByCustomerIdRet.go:29-37) |
| `KeyedResults.TopicCustomerIds` | ret/topicCustomerIdListRet.go:30-41 | the first-occurrence deduplication of what the gateways list under the topic |
| `KeyedResults.CustomerIdsByTopic` | ret/topicCustomerIdListRet.go:45-59 | for every inner map order, a topic is present exactly when some gateway lists it, with the very list TopicCustomerIds returns |
| `KeyedResults.DedupOne` | ret/topicCustomerIdListRet.go:49-56 | merging one gateway's topics extends each topic's list against that topic's own seen set and leaves the other topics alone |
| `KeyedResults.Get` | ret/connInfoRet.go:40-47 | the item of the first gateway visited that lists the connection |
| `KeyedResults.ToMap` | ret/connInfoRet.go:29-37 | at every connection the item of the last gateway visited that lists it |
| `KeyedResults.AgreeExactly` | ret/connInfoRet.go:28-47 | Get and ToMap agree for all pairs of gateway orders if and only if no two gateways list different items for the connection |
| `KeyedResults.GetDiffersFromToMap` | ret/connInfoRet.go:28-47 | two gateways with different items for one connection: Get and ToMap differ in the same gateway order |
| `Baton.GoodStep` | mainSocket/mainSocket.go:76-230 | every step of the three goroutines keeps the baton invariant |
| `Baton.OneToken` | mainSocket/mainSocket.go:76-88 | at most one token is in closedCh or in the heartbeat's hand |
| `Baton.SendsAreSafe` | mainSocket/mainSocket.go:80 | whoever is about to send on closedCh finds it open and empty, also after Close |
| `Baton.TrueMeansRead` | mainSocket/mainSocket.go:218-224 | in every run that reaches its return, Unregister returns true if and only if the receive loop has read the reply to the unregister request in that run, handed over and ended |
| `Baton.OnlyTheReplyEndsIt` | mainSocket/mainSocket.go:103-120 | in every run the receive loop is at its end if and only if it has read the reply to an unregister request |
| `Baton.HandshakeIsNotStranded` | mainSocket/mainSocket.go:205-207 | until the caller has its token back it can take it, or the heartbeat can put it back |
| `Baton.BatonIsSomewhere` | mainSocket/mainSocket.go:218-220 | while the caller waits, exactly one of gateway, network, receive loop, channel and heartbeat has the baton, or it has been lost |
| `Baton.DoomedRun` | mainSocket/mainSocket.go:220 | once the reply is lost, or is the next message for a waiting Register, the caller waits for ever |
| `Baton.ReadingReturns` | mainSocket/mainSocket.go:103-120 | from every state in which the receive loop reads and nothing is lost, some run lets Unregister return true |
| `Baton.ReturnsExactly` | mainSocket/mainSocket.go:204-225 | in every reachable state in which the caller waits for the reply, Unregister can still return true if and only if the reply is not lost and no Register waits on a connection whose next message it is, on its way or still to be answered |
| `Baton.HeartStoppedExactly` | mainSocket/mainSocket.go:205-207 | in every run that gets to writing the request, the heartbeat has stopped if and only if it took the token before the caller took it back |
| `Baton.HeartMayOutliveHandshake` | mainSocket/mainSocket.go:205-207 | a run in which it has not stopped |
| `Baton.HeartEndsExactly` | mainSocket/mainSocket.go:78-82 | in every run the heartbeat has ended if and only if it has seen the channel closed or put a token back |
| `Baton.HeartEndsForGood` | mainSocket/mainSocket.go:78-82 | in every run the heartbeat takes no step any more after that |
| `Baton.CloseEndsHeart` | mainSocket/mainSocket.go:78-82 | from every reachable closed state some continuation made of heartbeat steps alone ends the heartbeat |
| `Baton.FalseMeansUnsent` | mainSocket/mainSocket.go:219-225 | in every run Unregister has returned false only if its request could not be sent, and has then returned false unless Close has followed |
| `Baton.CloseOnly` | mainSocket/mainSocket.go:227-231 | the run of Close alone, after which the heartbeat has ended |
| `Baton.StoppedAndUnsent` | mainSocket/mainSocket.go:204-231 | the run in which the hand-shake stops the heartbeat, the request cannot be sent, Unregister returns false and Close follows |
| `Baton.HandshakeCompletes` | mainSocket/mainSocket.go:205-207 | from every reachable state before the request is written, Unregister can get to writing it |
| `Baton.DialsExactly` | mainSocket/mainSocket.go:103-112 | in every run the receive loop is dialling if and only if the connection has been lost and no dial has succeeded since |
| `Baton.RegisterSwallowsReply` | mainSocket/mainSocket.go:105-112 | the run in which the request is written between the reconnect and its Register: the gateway answers in order, Register reads the answer, and Unregister never returns |

## Left out

- Protobuf encoding and decoding, TCP dialling, deadlines, timers, `bufio`, logging: payloads are opaque bytes, and the network, the clock and the gateway choose their next event freely. Marshalling succeeds.
- Splitting `host:port` and `net.ParseIP`: the model starts from four address bytes and a port; IPv6 and malformed addresses are outside it.
- The query methods that repeat the pattern of `UniqIdList` or `CheckOnline`, the `SendTo...` wrappers, and the count, metrics and limit results: same shapes as the modelled ones. `ret/uniqIdListRet.go` and `ret/topicListRet.go` for the same reason.
- Replies of fewer than four bytes: `respData[4:]` and `message[0:4]` panic there; the model passes whole bodies on.
- TaskPoolAlignment.RepliesAnswerTheirQueries: for clean runs, without a one-way `Send` whose deadline fails after a short write; `StepAligned` shows that this is the exact condition of a step and `WrongAnswer` what can happen otherwise. Pools share nothing, so the statement is about one pool with any callers; that the gateway answers each query frame once and in order is part of the model.
- TaskPoolWakeup.NoLostWakeup: for runs without dial failure, lost connection or Close; without that `StrandedExactly` says when a waiter is stranded. Fairness of the scheduler is not modelled.
- TaskSockets.Pool.Get: one goroutine alone, so waiting on an empty queue ends like a timeout; with several goroutines it is in `TaskPool`.
- TaskSockets.Pool.Close: about idle connections; one released later goes back into the queue still open. `Manger.Close`, which closes every pool, is not modelled.
- Sockets.Socket.Connect: one `Close` by another goroutine during the dial; other overlaps, where the flag and the connection field change in separate steps, are not modelled, as the pool rules them out.
- Results.DedupAppend: `seen` is passed in and returned as a value where Go updates a map through a reference; each caller owns its map, so nothing else can see it change.
- FanOut.Query: what one exchange brings back is a function of the gateway and the ids; how it comes about on borrowed connections is `NetBuses.QueryGroups`. In the same way `Routing.ForceOffline` and `Unicast.SingleCastBulk` say which gateway is sent what, and `NetBuses.SendGroups` how it gets there; encoding the request in between is left out with Protobuf.
- Transfer.SentIsReceived: one way only; a peer can still receive exactly the delivered messages after a spoiled send, when nothing follows it.
- Unicast.SplittingPreserves: what a gateway does with an item is not in this repository; both readings of the comment at netBus.go:71-72, data first and ids first, are covered.
- Baton.ReturnsExactly: the gateway answers the requests on a connection in order, also an unregister request that comes before Register, and sends no event before it has answered Register; a gateway that does otherwise is not modelled. A `Send` that returns false has not put a whole request on the wire. `connId`, `wg` and the goroutine recovery are left out, and so is reconnecting after `MainSocket.Close`.
- Starting and stopping the main sockets and pools together, and reuse of a main socket manager after a failed start.
