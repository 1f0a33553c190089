# ShareSerial verification model

A Dafny model of ShareSerial: many TCP clients read one serial port, one client at a time may write to it.
The concurrent parts are labelled transition systems (an `Event` is one critical section, one channel
operation, one read from a connection or one port write; `Enabled` and `Apply` say when it can happen and what
it does; `ValidRun` and `Run` are whole executions), so every theorem about `Run(Init(..), es)` holds for every
interleaving. Objects whose methods change their fields are classes, proved against the functions of the
transition systems. Loops over text and numbers are methods proved against recursive functions.

| file | models |
|---|---|
| `ArbiterSpec.dfy`, `Arbiter.dfy` | the write lock with its expiry timers, as a transition system and as an object |
| `WriteArbitration.dfy` | the accept loop and the per-client handlers with explicit program counters, the disconnect branch, `Stop` |
| `WriteSafety.dfy`, `WriteHistory.dfy` | inductive invariants and the theorems about what reaches the port |
| `WriteProgress.dfy`, `WriteDrops.dfy` | handlers are never blocked; why a chunk is dropped |
| `WriteWitness.dfy` | runs in which a client that is not the owner writes, and in which an address is used again too soon |
| `WriteLease.dfy` | how long a client of the server keeps the lock, and why a tenure ends |
| `WriteReads.dfy`, `WriteStop.dfy` | what the handlers read; what `Stop` leaves to a connection |
| `BroadcastLog.dfy` | port buffer, reader, bounded channel, broadcast loop, clients joining and leaving |
| `TcpServer.dfy` | the client map and one broadcast round, as objects updated in place |
| `SerialReader.dfy` | the port object and the read loop over its reused buffer, with aliasing |
| `Broadcaster.dfy`, `BroadcastOrder.dfy` | the one-goroutine-per-delivery broadcaster: what is delivered, and in which orders |
| `LocalProxy.dfy` | replay buffer, snapshot and live dispatch of the local proxy |
| `SlidingBuffer.dfy` | the size-limited receive buffers |
| `MockPty.dfy` | the blocking pseudo terminal and its one-slot wakeup channel |
| `Reconnect.dfy` | the retry budget and the error channel |
| `Text.dfy`, `LogParser.dfy`, `Lines.dfy`, `Cli.dfy` | log lines: matchers, parser, extractors, line splitting, the log command |
| `PortNumber.dfy`, `HostPort.dfy` | decimal ports, printed and parsed in a 64-bit int; addresses, built and split |

Assumptions: client ids are remote addresses, so they are not empty; they need not be distinct, since a peer can
connect again from its address while the handler of its old connection still runs, and the theorems that need more
say so (`collided` is the history of such registrations). Handlers are the only callers of `Acquire` and
`ForceRelease` in the server; nothing is broadcast after `Stop`; a write to a live connection succeeds; clock
readings, dial outcomes, the chunking of reads and the order of goroutines are parameters of the events.

Where the code differs from what its documentation says, the model follows the code and a lemma says how far the
claim goes:

- The repository's README (README.md:9) promises that the write lock keeps clients from garbling each other's input. A client can write after
  its lease has ended (`WriteWitness.StrangerCanWrite`), but at most one chunk per connection and tenure
  (`WriteHistory.AtMostOneLateWrite`). A run is free of such writes exactly when no tenure ends between
  an owner check and its write (`WriteHistory.ExclusiveExactly`).
- The client map and the lock go by remote address. The map is exact up to `Stop` exactly when no registration finds
  a registered handler with the same address (`WriteHistory.ClientMapExactly`); otherwise the old handler evicts the
  live connection (`WriteWitness.OldHandlerEvictsNewConnection`), and two chunks can be late under one tenure
  (`WriteWitness.TwoLateWritesUnderOneTenure`).
- It also promises (README.md:8) that one stalled client does not affect the others. In the TCP server the log moves on
  without a client exactly when the write to that client is not outstanding (`BroadcastLog.StallHurtsExactly`); only the
  `Broadcaster` never waits (`Broadcaster.ProcessingNeverWaits`), and it pays with the order: two orders are possible
  exactly when two different messages are in flight to a client at once (`BroadcastOrder.OrderIsFreeExactly`).
- A callback left from an earlier tenure of the same client can end its new tenure
  (`ArbiterSpec.StaleCallbackEndsNewTenure`); `ArbiterSpec.LeaseIsSafeExactly` says precisely when. In the server a
  client can lose its lease early exactly when such a callback is in flight or another connection with its address has
  not let go (`WriteLease.ServerLeaseExactly`).
- `locked` and `owner` disagree once the empty id acquires, which the code does not refuse
  (`ArbiterSpec.LockedIffOwnedExactly`).
- The replay of the local proxy has a hole exactly when the connection registered after the end of a full buffer
  (`LocalProxy.CoverageHasNoHoleExactly`), which happens from the 257th full read on (`LocalProxy.HoleAfterFullBuffer`).
- The one-slot wakeup channel of the pseudo terminal is enough exactly for at most one reader
  (`MockPty.WakeupsAreSafeExactly`).
- The client drops the brackets of an IPv6 host and does not put them back: what it dials can be split exactly when
  the host has no colon (`HostPort.FlagIsDialableExactly`).
- A filter value `--format` is itself read as a flag when something follows it, and only then does the code take other
  arguments for flags than documented (`Cli.OptionsAsDocumented`).
- `Stop` closes only the connections in the map; the broadcast loop then comes to its end by itself exactly when no
  live connection holds it up (`BroadcastLog.StopEndsTheLoopExactly`, `BroadcastLog.StopCanLeaveTheLoopHanging`).

## Model

| member | source | states |
|---|---|---|
| `ArbiterSpec.HeldLockHasTimer` | pkg/arbiter/arbiter.go:33-94 | in every reachable state a held lock has a current timer of its own owner and tenure that is still armed or in flight |
| `ArbiterSpec.LockedIffOwnedExactly` | pkg/arbiter/arbiter.go:33-94 | all along any run `locked` is equivalent to a non-empty owner, iff the run never hands the free lock to the empty id (which the code does not refuse) |
| `ArbiterSpec.EmptyIdBreaksOwnership` | pkg/arbiter/arbiter.go:33-43 | the shortest run that breaks it: the empty id acquires |
| `ArbiterSpec.NoTenureOutlivesItsTimer` | pkg/arbiter/arbiter.go:44-55 | with prompt callbacks no tenure outlives its last arming plus that timer's duration |
| `ArbiterSpec.WhoEndsATenure` | pkg/arbiter/arbiter.go:48-94 | a tenure ends only by its owner's release or by a callback captured for the owner's id, never by another client's leftover callback |
| `ArbiterSpec.LeaseIsKept` | pkg/arbiter/arbiter.go:45-55 | with no callback of c in flight, no run takes the lock from c before the deadline except by c's own doing |
| `ArbiterSpec.LeaseIsSafeExactly` | pkg/arbiter/arbiter.go:45-55 | the lease can be cut short in some run iff a callback for the same id is in flight |
| `ArbiterSpec.StaleCallbackEndsNewTenure` | pkg/arbiter/arbiter.go:45-55 | a concrete run in which `Stop` comes too late and the old callback ends the new tenure |
| `ArbiterSpec.LeaseHoldsForItsDuration` | pkg/arbiter/arbiter.go:33-138 | in any run, a client that acquires or extends with no callback of its own in flight keeps the lock for the whole new duration unless it releases or re-arms |
| `ArbiterSpec.ErrorsExactly` | pkg/arbiter/arbiter.go:33-138 | each error is returned in exactly its case, a refused call changes nothing, a granted one begins or ends the tenure |
| `ArbiterSpec.ExtensionSetsLaterLeases` | pkg/arbiter/arbiter.go:111-138 | an extension also sets the length of later leases, until the next extension |
| `Arbiter.Arbiter.Acquire` | pkg/arbiter/arbiter.go:33-58 | the method makes the Acquire step in place, with its error, stopping the old timer and starting a fresh one |
| `Arbiter.Arbiter.Release` | pkg/arbiter/arbiter.go:61-80 | the method makes the Release step, with both errors |
| `Arbiter.Arbiter.ForceRelease` | pkg/arbiter/arbiter.go:83-94 | the method makes the ForceRelease step, which tests only the owner |
| `Arbiter.Arbiter.ExtendTimeout` | pkg/arbiter/arbiter.go:111-138 | the method makes the ExtendTimeout step, keeping the new timeout |
| `Arbiter.Arbiter.Fire` | pkg/arbiter/arbiter.go:48 | a due timer that was not stopped starts its callback; from then on `Stop` has no effect |
| `Arbiter.Arbiter.Expire` | pkg/arbiter/arbiter.go:48-55 | the timer callback, for a timer that has fired |
| `WriteHistory.AtMostOneLateWrite` | internal/server/server.go:118-140 | in every interleaving, whatever the addresses, a connection writes at most one chunk checked under a tenure after that tenure has ended |
| `WriteHistory.AtMostOneLateWritePerTenure` | internal/server/server.go:118-140 | one such chunk per tenure over all connections, as long as no connection is registered with the id of a registered one |
| `WriteWitness.TwoLateWritesUnderOneTenure` | internal/server/server.go:91-140 | a run in which two connections with one address both write late under the same tenure |
| `WriteHistory.WriteIsByOwnerExactly` | internal/server/server.go:137-138 | if the checked tenure is in force at the write, the writer's id is the owner; as long as ids do not collide, iff, and the writer is the connection that took the tenure |
| `WriteWitness.OwnerTestCanBeMetByAnother` | internal/server/server.go:137-138 | a run in which the owner's id is the writer's although the checked tenure is over, because another connection with that address took the lock |
| `WriteHistory.ExclusiveExactly` | internal/server/server.go:118-140 | for every run, whatever the addresses: all writes were made in the tenure they were checked under and no checked tenure is over, iff no tenure ended between an owner check and its write |
| `WriteHistory.ExclusiveUnlessCut` | internal/server/server.go:118-140 | in such a run the port history is sorted by tenure, and as long as ids do not collide each write comes from the connection that took its tenure |
| `WriteHistory.OwnersNeverInterleave` | internal/server/server.go:118-140 | in every run each write needs a port and has the id of its tenure, and writes made while their tenure was in force do not interleave with those of other tenures |
| `WriteHistory.PortIsInterleavingOfChunks` | internal/server/server.go:103-141 | port output is whole chunks; its projection to a connection is what its handler read, in order, at most once, less the chunks whose final check failed |
| `WriteReads.AcceptedAreHandled` | internal/server/server.go:78-98 | in every run each accepted connection gets one handler, in order |
| `WriteReads.ChunksAreWhatWasRead` | internal/server/server.go:103-118 | in every run a handler's chunks are the data its reads brought, unchanged, in order, none empty |
| `WriteReads.ChunkLengthsExactly` | internal/server/server.go:103-118 | a chunk of n bytes occurs in some run iff 1 <= n <= 1024 |
| `WriteHistory.ClientMapIsExact` | internal/server/server.go:91-109 | until Stop, and as long as ids do not collide, the client map is exactly the registered handlers |
| `WriteHistory.ClientMapExactly` | internal/server/server.go:91-109 | for every run: the client map is exact in every state up to Stop iff no registration before Stop finds a registered handler with the same id |
| `WriteWitness.OldHandlerEvictsNewConnection` | internal/server/server.go:106-115 | a run in which the old handler of an address deletes the map entry of its live new connection and releases the lock that this has just taken |
| `WriteHistory.ReturnedHandlerOwnsNothing` | internal/server/server.go:106-115 | after a handler returned, its id owns the lock only through another running handler of that id, whatever the addresses |
| `WriteHistory.LeavingHandlerHasLetGo` | internal/server/server.go:108-115 | when a disconnecting handler is about to give back the server mutex its id owns the lock only if ids have collided and another running handler of that id took it |
| `WriteLease.OwnerTestDecidesExactly` | internal/server/server.go:111-113 | after its owner test a disconnecting handler can still change the lock in some run iff its id was the owner at the test |
| `WriteHistory.WhoFreesTheLock` | internal/server/server.go:111-113 | the lock is taken from its owner only by a callback for the owner's id or by a disconnect under the owner's id, although test and release are separate sections |
| `WriteWitness.StrangerCanWrite` | internal/server/server.go:137-138 | a run in which the port receives the chunk of a client while another one owns the lock |
| `WriteLease.WhyATenureEnds` | internal/server/server.go:101-143 | in the server a tenure ends only when its own timer ran for 30 seconds, when a connection with the owner's address ends (the one that took the lock, as long as ids do not collide), or by a callback left from an earlier connection of the address that has gone |
| `WriteLease.ServerLeaseExactly` | internal/server/server.go:101-143 | in every reachable state, whatever the addresses so far, some run without a new connection from its address takes the lock from a connected client before its deadline iff a callback captured for its address is in flight or another handler of its address has not let go |
| `WriteLease.NewAddressKeepsItsLease` | internal/server/server.go:118-133 | a client that is the only one to use its address keeps the lock it takes for 30 seconds, whatever the others do, while it stays connected |
| `WriteLease.ReturningAddressCanLoseItsLease` | internal/server/server.go:106-133 | a reachable run in which an address comes back, takes the lock and loses it at once to the old callback |
| `WriteProgress.HandlersNeverBlock` | internal/server/server.go:106-132 | a busy or disconnecting handler can always step and is done within 24 (or 3) own steps; each call of Acquire uses up one of at most eleven attempts per chunk |
| `WriteDrops.WhyAChunkIsDropped` | internal/server/server.go:118-140 | with a port, a chunk is dropped only if all its eleven calls of Acquire found the lock held, or the tenure its handler took or saw is over |
| `WriteProgress.AtMostOneConnectionAfterStop` | internal/server/server.go:85-95 | after Stop at most one already accepted connection still gets registered |
| `WriteStop.StopSilences` | internal/server/server.go:167-191 | in every run after Stop a connection of the map is never read again and writes at most the one chunk in hand |
| `WriteStop.StopSilencesAll` | internal/server/server.go:167-191 | as long as ids do not collide, that holds of every connection whose handler has not left the map |
| `WriteStop.StopSilencesExactly` | internal/server/server.go:167-191 | after Stop a connection can still be read from iff it was neither closed before nor in the map of the running server, and its handler is not on its way out |
| `WriteStop.NewConnectionIsRead` | internal/server/server.go:85-105 | a connection that is registered can be read from, also after Stop |
| `WriteStop.MutexExcludesExactly` | internal/server/server.go:91-114 | Stop, registration and the start of a disconnect are possible exactly while no handler is in its disconnect branch |
| `BroadcastLog.ClientSeesContiguousSlice` | internal/server/server.go:146-163 | what a connection received is a contiguous slice of the global log from where it joined, without gap, duplicate or reordering |
| `BroadcastLog.DeviceBytesAreConserved` | cmd/server/main.go:105-128 | injected bytes = flattened log + message in the loop + channel + message in hand + port buffer, for every chunking |
| `BroadcastLog.ClientSeesDeviceSubstring` | internal/server/server.go:146-163 | a connection's bytes are a contiguous substring of the device's byte stream |
| `BroadcastLog.EveryReadIsAMessage` | cmd/server/main.go:105-128 | in every run the messages are the reads of the port, one each and in order, and their bytes with those left in the port are the bytes the device sent |
| `BroadcastLog.MessageLengthsExactly` | cmd/server/main.go:106 | a message of n bytes occurs in some run iff 1 <= n <= 4096 |
| `BroadcastLog.ChannelCapacityExactly` | internal/server/server.go:50 | n messages are queued in some run iff n <= 1024 |
| `BroadcastLog.UndisturbedRound` | internal/server/server.go:146-162 | every complete round in which no connection joins, leaves or dies gives the message once to exactly the registered connections, in whatever order and whatever the reader does |
| `TcpServer.TCPServer.Snapshot` | internal/server/server.go:151-156 | the loop over the map yields every registered connection exactly once |
| `TcpServer.TCPServer.BroadcastOne` | internal/server/server.go:146-162 | in place, every registered connection gets the message once and nothing else changes |
| `TcpServer.TCPServer.Stop` | internal/server/server.go:167-192 | closes and forgets every registered connection; a second call changes nothing |
| `BroadcastLog.StalledClientStopsTheLog` | internal/server/server.go:158-161 | while a delivery is outstanding no further message is logged in any run |
| `BroadcastLog.StalledClientStarvesOthers` | internal/server/server.go:158-161 | meanwhile no other client gets beyond the log as it was when the stall began |
| `BroadcastLog.StallHurtsExactly` | internal/server/server.go:158-161 | in every reachable delivery with something to come, the log can move on without client c iff the write to c is not outstanding |
| `BroadcastLog.StallIsReachable` | internal/server/server.go:158-161 | a run in which one client's write is outstanding while another live client waits for a queued message |
| `BroadcastLog.StopEndsTheLoopExactly` | internal/server/server.go:146-191 | after Stop the loop can reach its end while the peers do nothing iff no live connection has a message outstanding or still to come |
| `BroadcastLog.StopCanLeaveTheLoopHanging` | internal/server/server.go:106-191 | a run in which Stop leaves the loop waiting for a connection that is no longer in the map |
| `BroadcastLog.CutOffReceivesNothing` | internal/server/server.go:106-191 | a connection registered at Stop, one that died, or one that left with no write outstanding receives nothing more in any run |
| `BroadcastLog.NothingAcceptedAfterStop` | internal/server/server.go:186-187 | after Stop no message is accepted, and none that was accepted is lost |
| `BroadcastLog.LoopEndsOnlyAfterStop` | internal/server/server.go:146-164 | the loop ends only after Stop and with every accepted message logged |
| `SerialReader.MockSerialPort.Read` | pkg/serial/serial.go:174-185 | takes the front of the input into the caller's buffer and leaves the rest of both alone; EOF iff empty |
| `SerialReader.ReadSerialAndBroadcast` | cmd/server/main.go:105-128 | for any number of polls the new messages are the successive pieces of 4096 bytes of the input, none empty; it blocks iff they are more than the channel has room for; nothing is lost, and new messages never alias the read buffer |
| `Broadcaster.EveryMessageIsAccountedFor` | internal/broadcast/broadcast.go:37-46 | per client, appended + in hand + queued + in flight is the multiset processed while registered |
| `Broadcaster.ProcessedInOrder` | internal/broadcast/broadcast.go:37-65 | what has been processed, is held or is queued is what was broadcast, in order |
| `Broadcaster.OwedExactlyWhileRegistered` | internal/broadcast/broadcast.go:39-60 | from its addition until its id is filed again or removed a client is owed every message processed; after removal or displacement none |
| `Broadcaster.OnlyRegisteredAreServed` | internal/broadcast/broadcast.go:39-60 | a goroutine is only ever started for a client that is registered at that moment |
| `Broadcaster.MembershipIsNeverBlocked` | internal/broadcast/broadcast.go:37-60 | from every reachable state the loop's own steps lead to one in which any client can be added or removed |
| `Broadcaster.CapacitiesExactly` | internal/broadcast/broadcast.go:27 | n messages are queued in the input, or for a client, in some run iff n <= 1024 |
| `Broadcaster.ProcessingNeverWaits` | internal/broadcast/broadcast.go:37-46 | the loop disposes of a message by its own steps alone, however full the queues are |
| `Broadcaster.OrderCanFlip` | internal/broadcast/broadcast.go:42 | any two messages have a run in which they arrive in the opposite order of their broadcast |
| `BroadcastOrder.DrainedExactly` | internal/broadcast/broadcast.go:37-46 | a client can end up exactly with what went through its queue, in order, followed by the messages in flight in any order |
| `BroadcastOrder.OrderIsFreeExactly` | internal/broadcast/broadcast.go:42 | two ways of draining a client can end differently iff two different messages are in flight to it |
| `BroadcastOrder.OneAtATimeKeepsOrder` | internal/broadcast/broadcast.go:37-46 | if no goroutine is started for a client while another one of it is in flight, its queue follows the order of processing |
| `LocalProxy.ReplayBufferIsBoundedSegment` | internal/localproxy/proxy.go:146-155 | the buffer is the stream since the last clear or its shortest whole-chunk prefix of 1 MiB, and at most 1 MiB - 1 + 4096 long |
| `LocalProxy.BufferStartsAtLastClear` | internal/localproxy/proxy.go:146-155 | told from the events: the buffer is the part of what arrived that begins at the last clear, all of it below 1 MiB |
| `LocalProxy.ConnectionCopies` | internal/localproxy/proxy.go:151-181 | each stream position is sent exactly once by the replay part and once by the live part, with its true bytes |
| `LocalProxy.ListensExactly` | internal/localproxy/proxy.go:75-95 | in every continuation a connection listens iff it did and is neither removed nor cut off by Stop; while it listens its live part is exactly what arrives, otherwise nothing |
| `LocalProxy.ServedSinceRegistration` | internal/localproxy/proxy.go:75-95 | from its registration on a connection is sent every piece that arrives until it is removed or the proxy stopped |
| `LocalProxy.NothingAfterRemoval` | internal/localproxy/proxy.go:89-95 | nothing that arrives after its removal, or after Stop, is sent to a connection |
| `LocalProxy.RemovedIsNotListening` | internal/localproxy/proxy.go:89-95 | a removed connection is not in the map in any run |
| `LocalProxy.CanBeRemoved` | internal/localproxy/proxy.go:75-95 | every connection can be removed within two steps, and the proxy can always be stopped |
| `LocalProxy.ReplayCoversWithKnownOverlap` | internal/localproxy/proxy.go:75-80 | below the cap nothing from max(b, s-65536) on is missing and exactly [max(r, b, s-65536), s) is sent twice |
| `LocalProxy.CoverageHasNoHoleExactly` | internal/localproxy/proxy.go:153-155 | in general there is no hole iff the connection registered no later than where the buffer ends |
| `LocalProxy.HoleAfterFullBuffer` | internal/localproxy/proxy.go:146-155 | for every n, a connection after n full reads misses exactly what was read after the first 256 |
| `LocalProxy.LocalProxy.OnRemoteData` | internal/localproxy/proxy.go:151-162 | the method makes the data step and returns the connections dispatched to |
| `LocalProxy.LocalProxy.SendBufferedData` | internal/localproxy/proxy.go:169-182 | the method sends what the snapshot step says |
| `SlidingBuffer.Buffer.AppendWithLimit` | internal/broadcast/broadcast.go:126-138 | for every int limit: the buffer is the newest part of everything appended; a negative limit panics with the data appended and nothing trimmed |
| `SlidingBuffer.SteadyLimit` | internal/server/server.go:286-295 | with one limit, trimming at each append equals trimming once at the end |
| `SlidingBuffer.ReplayIsSuffix` | internal/server/server.go:286-295 | with a limit that changes between appends, exactly which suffix survives |
| `MockPty.SingleReaderIsAlwaysWoken` | internal/pty/pty.go:75-111 | a single waiting reader with data present has its token, and never returns empty-handed |
| `MockPty.WakeupDelivers` | internal/pty/pty.go:85-110 | the token leads to the data without a timeout |
| `MockPty.WakeupsAreSafeExactly` | internal/pty/pty.go:75-156 | no run of n readers has a reader waiting beside data without a token iff n is at most 1 |
| `MockPty.NothingIsLostOrReordered` | internal/pty/pty.go:75-156 | bytes read followed by bytes pending are the bytes injected, in both directions, for any buffer sizes and readers |
| `MockPty.BytesAreAccountedFor` | internal/pty/pty.go:75-171 | told from the events: what was injected, and what was written before Close, is what was read and what waits, in order |
| `MockPty.CloseIsFinal` | internal/pty/pty.go:75-171 | after Close nothing is written or read and nobody starts to wait |
| `MockPty.ReadReturnsExactly` | internal/pty/pty.go:83-110 | a Read can come back by its own steps iff data is present or the terminal is closed or it has made that test; it then brings as much of the front as fits |
| `MockPty.TokensAreInjections` | internal/pty/pty.go:88-155 | wakeups taken and the token left are no more than the injections |
| `MockPty.ReadKeepsItsBuffer` | internal/pty/pty.go:75-110 | a Read under way keeps its buffer and comes back only by its last critical section |
| `MockPty.MockPTY.InjectExternalData` | internal/pty/pty.go:146-156 | the method makes the injection step, leaving one token |
| `MockPty.MockPTY.FinishRead` | internal/pty/pty.go:97-110 | the last critical section of Read, into the caller's array |
| `Reconnect.DialsSinceSuccess` | internal/reconnect/reconnect.go:99-119 | dials since the last success = min(retryCount, maxRetry), unlimited for maxRetry <= 0 |
| `Reconnect.NoDialAfterExhaustion` | internal/reconnect/reconnect.go:105-108 | no dial after exhaustion in any run without a successful Connect |
| `Reconnect.FailuresWaitForReader` | internal/reconnect/reconnect.go:76-90 | failing attempts are at most two ahead of the reader of the error channel, and exactly two iff the loop is blocked |
| `Reconnect.TwoFailuresWithoutReader` | internal/reconnect/reconnect.go:76-90 | with nobody receiving there are at most two failing attempts |
| `Reconnect.ConnectedIsLeftAlone` | internal/reconnect/reconnect.go:79-91 | no run dials or changes the connection of a connected manager until the user intervenes, unless a try was under way |
| `Reconnect.LoopDialsExactly` | internal/reconnect/reconnect.go:79-91 | the loop gets to a dial by its own steps iff the budget allows one and it is about to try, or is disconnected and not stopped or past that test; what the dial brings is what the manager has |
| `Reconnect.LoopConnectsFromTheStart` | internal/reconnect/reconnect.go:75-96 | for every budget the loop started on a new manager can connect by its first dial |
| `Reconnect.DisconnectIsRepaired` | internal/reconnect/reconnect.go:49-91 | after Disconnect the running loop can bring the connection back within the budget |
| `Reconnect.ConnectRestoresBudget` | internal/reconnect/reconnect.go:33-46 | a successful Connect gives the new connection and the whole budget; a failed one changes nothing |
| `Reconnect.AtMostOneDialAfterStop` | internal/reconnect/reconnect.go:79-124 | after Stop at most one more dial, none if the loop is not past its test |
| `Reconnect.LoopEndsExactly` | internal/reconnect/reconnect.go:79-124 | the loop can come to its end iff it has been stopped |
| `Reconnect.TryErrorExactly` | internal/reconnect/reconnect.go:99-119 | which error an attempt gives, in exactly which case |
| `Reconnect.ErrorsArriveInOrder` | internal/reconnect/reconnect.go:85-88 | the reader receives the errors of the failing attempts, each once and in order |
| `Reconnect.ReconnectManager.TryReconnect` | internal/reconnect/reconnect.go:99-119 | the method makes the attempt step with its error |
| `LogParser.ParseUndoesLine` | pkg/logparser/logparser.go:34-72 | ParseLine of a line with any blanks around the level returns timestamp, normalised level and message |
| `LogParser.ParseUndoesPrint` | tests/simulation/virtual_serial.go:213 | in particular for the printed form |
| `LogParser.RejectedExactly` | pkg/logparser/logparser.go:68-70 | a line is rejected iff no bracketed timestamp occurs in it, and otherwise the leftmost one is returned |
| `LogParser.LevelExactly` | pkg/logparser/logparser.go:34-72 | for every line the level is the leftmost token between a bracket and a colon, normalised, and INFO if there is none |
| `LogParser.MessageExactly` | pkg/logparser/logparser.go:34-72 | for every line the message is what follows the first colon and space, or the line itself |
| `Cli.ExtractorsAgreeExactly` | internal/cli/cli.go:119-151 | the string-splitting extractors agree with the parser, the level iff it is not WARNING |
| `Cli.ExtractTimestampExactly` | internal/cli/cli.go:119-128 | for every line: what stands in the bracket at its front, without spaces around it, or nothing |
| `Cli.ExtractLevelExactly` | internal/cli/cli.go:131-141 | for every line: the word between the first closing bracket and the next colon, without white space around it, or INFO |
| `Cli.ExtractMessageExactly` | internal/cli/cli.go:144-151 | for every line the parser's message |
| `Cli.SelectedExactly` | internal/cli/cli.go:87-92 | the selected lines are those in which the filter occurs, each once, in the order stored |
| `Cli.EntriesExactly` | internal/cli/cli.go:95-113 | one entry for each selected line, in order, with the parts of the line if it has the printed shape |
| `Cli.CLI.HandleLog` | internal/cli/cli.go:71-116 | option reading, filtering and both formats |
| `Cli.OptionsAsDocumented` | internal/cli/cli.go:76-85 | for any arguments the code takes for flags what is documented iff no filter reached by the documented reading has the value `--format` with an argument behind it; the options follow from the flags |
| `Cli.OptionPairExactly` | internal/cli/cli.go:76-85 | both flags, format first: always read as documented; filter first: iff the filter value is not itself the format flag (or the values coincide) |
| `Cli.TextOutputRoundTrip` | internal/cli/cli.go:115 | re-parsing the text output yields exactly the matching lines, for every input and filter |
| `Lines.SplitLines` | cmd/cli/main.go:116-129 | the loop computes the pieces between newlines |
| `Lines.ParseLogData` | cmd/cli/main.go:96-104 | the loop keeps exactly the non-empty pieces |
| `Lines.PiecesAreOneLine` | cmd/cli/main.go:116-129 | no piece contains a newline |
| `Lines.JoinUndoesSplit` | cmd/cli/main.go:116-129 | rejoining restores the input up to one trailing newline |
| `Lines.SplitUndoesJoinExactly` | cmd/cli/main.go:116-129 | splitting restores joined lines iff the last is not empty |
| `Lines.LogLinesOfJoin` | cmd/cli/main.go:96-104 | re-reading joined texts, whatever they contain, gives the log lines of each |
| `PortNumber.IntToString` | internal/config/config.go:58-69 | the loop and its 7700 shortcut compute the decimal digits |
| `PortNumber.ParsePort` | cmd/client/main.go:54-60 | the digit loop computes the wrapped value of the digits |
| `PortNumber.ParseUndoesPrint` | cmd/client/main.go:54-60 | parsing a printed int returns it, 0 for anything not positive |
| `PortNumber.PrintUndoesParseExactly` | internal/config/config.go:58-69 | printing a parsed text restores it iff it is a canonical numeral below 2^63 |
| `HostPort.SplitUndoesAddressExactly` | internal/config/config.go:47-55 | splitting a built address returns host and digits iff the host has no colon and no bracket |
| `HostPort.SplitUndoesBracketsExactly` | cmd/client/main.go:49-51 | with the host in brackets, iff the host itself has no bracket |
| `HostPort.SplitExactly` | cmd/client/main.go:49 | for every text: splitting gives host and port iff the text is host:port or [host]:port with no stray colon or bracket |
| `HostPort.FlagExactly` | cmd/client/main.go:46-65 | for every flag: an empty one changes nothing, one that can be split sets host and port, any other becomes the address and leaves the port |
| `HostPort.FlagUndoesAddressExactly` | cmd/client/main.go:46-64 | the flag sets the host and port that a configuration printed iff the host has no colon and no bracket; ports that are not positive become 0 |
| `HostPort.FlagIsDialableExactly` | cmd/client/main.go:46-90 | what the client dials after a flag with host and port can itself be split iff the host has no colon |
| `HostPort.LoopbackIsNotDialable` | cmd/client/main.go:46-90 | `[::1]:7700` is read correctly and dialled as `::1:7700`, which cannot be split |

## Left out

- Real TCP, listeners, dialing, pseudo-terminal ioctls, symlinks and the serial driver: connections are append-only logs that may die, the port is the mock port's FIFO.
- The concurrent loops (`handleClient`, `broadcastLoop`, `process`, `remoteReadLoop`, `AutoReconnect`, the wait in `MockPTY.Read`) and the `Broadcaster` are modelled on values, one event per atomic step, because their correctness is about interleavings. In-place update and aliasing are modelled for the arbiter and its timers, the client map and a broadcast round, the port and its reader, the receive buffers, the proxy's and the terminal's fields and the reconnect manager.
- `AcquireWriteLock` and `ReleaseWriteLock` called with other ids from outside a handler, and `Broadcast` after `Stop`, which the code does not guard against.
- `MockServer`, apart from its receive buffer.
- Sleeping times: a sleeping handler or loop may wake at any moment, which only adds interleavings.
- Delivery order inside the local proxy: one goroutine per write, so only coverage is claimed.
- Cli.CLI.HandleLog: the JSON document is left as the list of its entries, because its text is made by Go's encoding/json and not by the repository.
- Reconnect.DialsSinceSuccess: the retry counter is an unbounded number, since no run reaches 2^63 attempts.
- Text is a sequence of characters: byte-level UTF-8 decoding of malformed input is not modelled.
- YAML loading, defaults, port scanners, JSON marshalling, `FilterRegex`, time-range filters, statistics and the simulation harness: I/O or easy claims.
