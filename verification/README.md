# A verified model of p2p-netcat's protocols

p2p-netcat carries byte streams, terminals and UDP datagrams between peers. This
project models the parts whose correctness depends on how several steps work
together, and proves what they keep over every run or every input. The Dafny
verifier checks all of it: `dafny verify dfyconfig.toml`.

## What is modelled

**Native WebRTC stream.** `FlowStream` is one endpoint: a class with the fields of
the Go `Stream`, each method proved against a function per critical section.
`FlowNet` joins two endpoints by channels that keep data in order and may lose any
frame at any time, with the acknowledgements that Go sends from their own goroutines
in an unordered pool. `FlowTheorems` holds the results. Credit obeys an exact
conservation law in every run: outstanding bytes, lost bytes and over-acknowledged
bytes together equal the sender's counter, what resets forgave and what was written
before flow control was on. From it follow the bound of r + 1 windows after r resets,
that the 1 MiB queue cannot overflow up to three resets (and a run with four that
does), exactness without resets, and with `FlowContent` order, absence of duplicates,
and that end-of-file means everything was read.

**Changing transports.** `FlowTransports` is the same pair of endpoints over a
sequence of transports, each with its own queue. A write picks the transport its link
holds and may put its frame there after the link has moved on; control frames go to
any transport used so far; the forwarder reads one transport and attaches another; at
most two handshakes of a client run at once. Credit does not depend on the order of
arrival: `FlowAccounts` proves conservation, the bound of r + 1 windows, the absence
of overflow up to three resets and exactness without resets for every run, in both
directions and over all transports together. Order does depend on it.
`FlowRefinement` proves that while the listener attaches transports in the order they
were dialled, this system refines `FlowNet`: passed transports are lost frames, late
sends are lost sends. `FlowFailures` proves that the fault of the first failure is the one every later read
reports. `FlowReorder` settles the rest. The client never receives out of
order, whatever the listener does. The listener receives in order in every run if and
only if it attaches in dialling order, among the orders that can occur at all. Nothing
in `activate` compares transports, so an authenticated transport that waits for the
listener's lock while a later one comes and goes is attached afterwards, and its
queued data then follows newer data. `FlowSchedules` shows which orders occur: exactly
those in which no transport is attached before two that were dialled earlier, because
a waiting transport holds one of the two handshakes; for each of them it constructs a
run, and one that swaps two chunks unless the order is the dialling order.

**Reconnecting listener.** `Listener` is the state machine of the stream table: one
action per critical section, with the goroutine of every transport, stale grace
timers, the gap between removing a stream and closing its link, and the gap between
starting a stream's goroutine and announcing it. The invariant holds in every
interleaving, and `ListenerRuns` draws the conclusions. A stream may be announced after it has left the table, and a run shows
it; the calls made and the call still to come are always exactly one.
`ListenerReconnect` shows one logical stream outliving any number of transports and
that every stream uses transports as an endpoint of `FlowTransports` may.
`ListenerTables` and `PeerLinks` are the objects themselves, `HandshakeGates` the
admission counters.

**Multi-tunnel supervisor.** `TunnelConfig` validates, `Supervisor` describes the
resources of running tunnels, `Reloading` what one reload does to them, and `Daemons`
is the object. Loops over Go maps pick elements in any order. `Run` is
all-or-nothing: a failure leaves no lock, no stream handler and no listener. A successful `Reload` ends in agreement with the new configuration
exactly when the state before it was *ready*: every handle known to the recorded
configuration and every unchanged tunnel running as recorded. In agreement that
always holds. After a failed `Reload` it need not, because the recorded configuration
is not updated and reloading it is a successful call that changes nothing; a concrete
lost tunnel is given.

**UDP path.** `Datagram` frames packets on a byte stream, `UdpForward` follows an
association from the local socket to the remote target, `UdpTables` is the bounded
association table.

**Codecs.** `PtyFrames` (the blocking Go reader and the incremental JavaScript
decoder), `AuthenticatedStream` (the admission prefix splitter in front of that
decoder), `RouteRecord` over `Cbor` and `Ordering`, `AuthPayload`, `Admission` and
`Socks`. `ByteStream` is the fragmenting reader and the partial writer they run
against.

## Conventions

- A Go call that would park on a condition variable reports that it is blocked and
  changes nothing.
- I/O, clocks, randomness and foreign libraries are parameters: `world` and
  `Outcome` answer for the system while a tunnel starts, `plan` for a writer,
  `Names` for peer and multiaddr parsing, `Text` for Go's string helpers, `hash`,
  `mac` and `Scheme` for cryptography.
- Cryptographic assumptions are stated on the very pair of inputs a result compares:
  that pair does not collide, or that signature does not verify for the other message.
- `foreign` is the set of logical ports locked by someone else in the process.
- Transports, streams and handles are named by numbers that are never reused.
- `FlowTheorems.DoMove` takes `Ok` of both endpoints as a precondition;
  `ReachableInv` shows that it always holds, so it restricts no run.

## Model

| member | source | states |
|---|---|---|
| FlowStream.Stream.constructor | nativewebrtc/stream.go:43-50 | a new endpoint is open, empty, without flow control and without credit in use |
| FlowStream.Stream.Read | nativewebrtc/stream.go:52-74 | hands out the unread bytes in order and as many as fit; with none left it fails exactly with the recorded fault, ends exactly without a fault on a closed side, and waits exactly otherwise |
| FlowStream.Stream.Write | nativewebrtc/stream.go:76-101 | waits exactly while open, under flow control, with credit in use and the payload beyond the window of 262144 bytes; is refused exactly when closed; a failed send gives its credit back |
| FlowStream.Stream.CloseWrite | nativewebrtc/stream.go:103-111 | announces the end of data once |
| FlowStream.Stream.Receive | nativewebrtc/stream.go:142-164 | appends to the unread bytes, discards when closed, and fails the stream exactly when the 1 MiB queue would overflow |
| FlowStream.Stream.Reconnected | nativewebrtc/stream.go:168-177 | zeroes the credit and sends resume and flow:1 |
| FlowStream.Stream.HandleControl | nativewebrtc/stream.go:179-207 | effect and replies of every control frame, field by field |
| FlowStream.Stream.ReleaseCredit | nativewebrtc/stream.go:209-217 | takes the count off the counter, which never becomes negative |
| FlowStream.Stream.FailWith | nativewebrtc/stream.go:237-255 | only the first failure counts, its fault is recorded, and queued bytes stay readable |
| FlowStream.ReadKeepsBytes | nativewebrtc/stream.go:52-74 | bytes returned plus bytes still unread are the bytes unread before, for every buffer size |
| FlowStream.ReadAcknowledges | nativewebrtc/stream.go:67-72 | acknowledged bytes are exactly those released from the queue |
| FlowStream.ReceiveAppends | nativewebrtc/stream.go:142-157 | an accepted frame extends the unread bytes; overflow is characterised both ways |
| ControlText.ParseInvertsRender | nativewebrtc/stream.go:179-207 | every control text the stream sends is understood as meant, acknowledged counts included |
| ControlText.ControlWords | nativewebrtc/stream.go:179-207 | exactly the texts eof, abort, flow:1, resume, ping, pong and ack: with a number have their meanings |
| Decimal.AtoiInvertsItoa | nativewebrtc/stream.go:199-203 | an acknowledged count survives its decimal text |
| Decimal.AtoiExact | nativewebrtc/stream.go:199-203 | a sign, leading zeros and the digits of a number are read as that number exactly within 64 bits |
| Decimal.DigitsByTens | nativewebrtc/stream.go:67-72 | the last digit counts ones and the digits before it tens, without leading zeros |
| FlowNet.DeliverIsReceive | nativewebrtc/stream.go:142-207 | what a delivered frame does in the step system is what the endpoint's Receive computes, aborts and overflows beginning a failure, and the sender loses only that frame |
| FlowNet.ActionsAreCalls | nativewebrtc/stream.go:52-177 | the endpoint's own actions change its fields as Write, Read, CloseWrite and Reconnected do |
| FlowNet.FailureActionsAreFail | nativewebrtc/stream.go:237-255 | on an open stream the reader is told at once, the writer exactly when no write is pending, and the three actions together are one uninterrupted fail |
| FlowNet.StepCredit | nativewebrtc/stream.go:76-217 | every action of either endpoint or the transport keeps the credit accounting of both directions |
| FlowContent.StepOrdered | nativewebrtc/stream.go:52-164 | every action keeps read, unread, travelling and written chunks in order within the channel |
| FlowContent.StepEnded | nativewebrtc/stream.go:103-111 | after the end of data no data can follow it |
| FlowTheorems.ReachableInv | nativewebrtc/stream.go:52-255 | the whole invariant holds in every reachable state |
| FlowTheorems.ReachableBothWays | nativewebrtc/stream.go:52-255 | exchanging the two endpoints maps every reachable state to a reachable one, so every one-direction result holds both ways |
| FlowTheorems.CreditConservation | nativewebrtc/stream.go:76-217 | exact conservation of credit over all runs; the counter never exceeds outstanding plus lost bytes |
| FlowTheorems.OutstandingBound | nativewebrtc/stream.go:76-217 | on one channel, after r resets at most r + 1 windows, plus what preceded flow control, are outstanding |
| FlowTheorems.NoOverflowUpToThreeResets | nativewebrtc/stream.go:14-17 | on one channel, with early flow control, writes up to a window and at most three resets the queue check never fails |
| FlowTheorems.OverflowAfterFourResets | nativewebrtc/stream.go:145-152 | a run with four resets overflows, so the bound is tight |
| FlowTheorems.ExactWithoutResets | nativewebrtc/stream.go:83-95 | without resets and losses the counter equals the outstanding bytes, and no writer waits once it is zero |
| FlowTheorems.WriteBeginsIff | nativewebrtc/stream.go:76-95 | without resets and losses an idle open writer begins exactly if nothing is outstanding, or outstanding bytes and payload fit into 262144, or flow control is off |
| FlowTheorems.NoDuplicateNoReorder | nativewebrtc/stream.go:52-164 | whatever is lost and however often credit is reset, received chunks embed in order into the written ones |
| FlowTheorems.ReadIsPrefixOfWritten | nativewebrtc/stream.go:52-101 | without drops the bytes read are a prefix of the bytes written |
| FlowTheorems.EofMeansEverythingRead | nativewebrtc/stream.go:58-63 | a remote end-of-file means all written bytes were read and no more can come |
| FlowTheorems.ErrorOnlyAfterQueuedBytes | nativewebrtc/stream.go:55-64 | everything accepted before a failure is read before the failure shows |
| FlowRefinement.StepRefines | nativewebrtc/endpoint.go:239-289 | every step over many transports that attaches none out of order is a run of steps of the two-endpoint system: late sends are lost sends, passed queues lost frames |
| FlowRefinement.InOrderRefines | nativewebrtc/endpoint.go:586-645 | in every run in which the listener attaches in dialling order the state is a reachable state of the two-endpoint system |
| FlowAccounts.StepAccounts | nativewebrtc/stream.go:76-217 | every step over many transports, in any attaching order, keeps the credit accounting of both directions |
| FlowAccounts.CreditConserved | nativewebrtc/stream.go:76-217 | in every run and both directions credit is conserved over the queues of all transports together |
| FlowAccounts.WindowsBound | nativewebrtc/stream.go:76-217 | in every run and both directions at most r + 1 windows are outstanding on all transports after r resets |
| FlowAccounts.NeverOverflows | nativewebrtc/stream.go:142-152 | with early flow control, writes up to a window and at most three resets no data frame on any transport can overflow the receive queue, in every run and both directions |
| FlowAccounts.ExactUnlessReset | nativewebrtc/stream.go:83-95 | without resets and losses the counter is what is outstanding on all transports, and no writer waits once it is zero |
| FlowAccounts.WriteBeginsIff | nativewebrtc/stream.go:76-95 | the same over all transports together, in every run and both directions |
| FlowFailures.FirstFailureReported | nativewebrtc/stream.go:52-74 | in every run the fault of the first failure, and no other, is what every read past the queued bytes reports once the reader is told |
| FlowFailures.FaultsOfFrames | nativewebrtc/stream.go:142-189 | on an open stream exactly an abort and an overflowing data frame begin a failure, each with its own fault |
| FlowFailures.NoFaultUnlessFailed | nativewebrtc/stream.go:52-64 | before any failure no read reports a fault, in every run |
| FlowRefinement.InOrderEof | nativewebrtc/stream.go:58-63 | end-of-file across transports attached in dialling order means everything was read, in both directions, if no data was dropped or left on a passed transport |
| FlowReorder.InOrderNoReorder | nativewebrtc/endpoint.go:586-645 | across any number of transports, losses and late frames nothing is duplicated or reordered, in both directions, while the listener attaches in dialling order |
| FlowReorder.ClientNeverReorders | nativewebrtc/endpoint.go:599-646 | data to the client keeps its order whatever order the listener attaches in |
| FlowSchedules.AttachOrders | nativewebrtc/endpoint.go:782-823 | the listener can attach transports in exactly the orders that place no transport before two dialled earlier, as at most two handshakes of a client run at once |
| FlowReorder.LateAttachReorders | nativewebrtc/endpoint.go:922-984 | for every order that can occur with a transport after a later one, a run that receives two chunks swapped |
| FlowReorder.OrderKeptIff | nativewebrtc/endpoint.go:922-984 | data to the listener keeps its order in every run if and only if transports are attached in dialling order, or in an order that cannot occur |
| PeerLinks.PeerLink.Send | nativewebrtc/endpoint.go:239-251 | blocks exactly while detached and open |
| PeerLinks.PeerLink.Attach | nativewebrtc/endpoint.go:253-262 | takes a transport only when open and free |
| PeerLinks.PeerLink.Detach | nativewebrtc/endpoint.go:264-272 | lets go of exactly the given transport |
| PeerLinks.PeerLink.Close | nativewebrtc/endpoint.go:274-289 | closes once, releasing the attached transport |
| Listener.StepKeepsInv | nativewebrtc/endpoint.go:922-995 | every critical section keeps the table, link, goroutine and announcement invariants |
| ListenerRuns.ListenerSafety | nativewebrtc/endpoint.go:835-995 | in every interleaving stored links are open and agree with their entry, no transport is on two links, one forwarder per stream, nothing stored after Close |
| ListenerRuns.AnnouncedExactlyOnce | nativewebrtc/endpoint.go:960-972 | in every state of every run, onStream calls made plus the one still to come make exactly one per stream |
| ListenerRuns.AnnouncedAfterDrop | nativewebrtc/endpoint.go:969-972 | a run in which a stream is announced after it left the table |
| ListenerRuns.DroppedForGood | nativewebrtc/endpoint.go:934-945 | a dropped stream never re-enters the table, so a stored stream object never changes |
| ListenerRuns.OnlyDetachedExpire | nativewebrtc/endpoint.go:985-994 | a stream leaves the table only when closed, with the listener, or by a timer while detached |
| ListenerRuns.NewRemoteIsServed | nativewebrtc/endpoint.go:922-947 | every remote not stored gets a fresh stream on its transport with one goroutine to announce it, however many others are served, and nothing of theirs changes |
| ListenerRuns.RebindAlwaysAttaches | nativewebrtc/endpoint.go:948-959 | a new transport is accepted exactly when the stream is detached; attaching never fails then |
| ListenerReconnect.WatchEndDetaches | nativewebrtc/endpoint.go:975-984 | the end of the attached transport detaches its stream and keeps it stored |
| ListenerReconnect.TimerEndsForGood | nativewebrtc/endpoint.go:985-994 | a stream ended by its grace timer is, in every later state of every run, out of the table with a closed link and never served by a transport again |
| ListenerReconnect.CloseStreamThenLink | nativewebrtc/endpoint.go:934-945 | closing a stream removes only itself and closes its link |
| ListenerReconnect.StreamOutlivesTransports | nativewebrtc/endpoint.go:922-995 | after any list of reconnects the same stream is stored on the last transport, and no reconnect announced it |
| ListenerReconnect.StreamShifts | nativewebrtc/endpoint.go:922-995 | in every run a stream has at most one forwarder, gets a transport only while it has none, and never the same one twice: the moves an endpoint of FlowTransports may make |
| ListenerTables.ListenerTable.BindTransport | nativewebrtc/endpoint.go:922-961 | keeps the transport exactly if the listener is open and the remote is new or detached; the resulting table, entry and goroutine in each of the three cases |
| ListenerTables.ListenerTable.EndWatch | nativewebrtc/endpoint.go:975-985 | the critical section of watch takes the machine's step |
| ListenerTables.ListenerTable.FireTimer | nativewebrtc/endpoint.go:985-994 | ends exactly a stored stream without a transport and leaves any other untouched |
| ListenerTables.ListenerTable.RemoveStream | nativewebrtc/endpoint.go:934-943 | the locked half of a stream's close function removes it, and nothing if another stream took its place |
| ListenerTables.ListenerTable.CloseStreamLink | nativewebrtc/endpoint.go:944-945 | the unlocked half closes the link and leaves the table alone |
| ListenerTables.ListenerTable.Close | nativewebrtc/endpoint.go:835-856 | closing in any table order empties the table and closes every stored link |
| HandshakeGates.HandshakeGate.Begin | nativewebrtc/endpoint.go:811-823 | admits exactly well-formed clients within both limits |
| HandshakeGates.HandshakeGate.End | nativewebrtc/endpoint.go:825-833 | removes one running handshake and keeps the counters in agreement |
| HandshakeGates.TallyTotal | nativewebrtc/endpoint.go:688-690 | the per-peer counts add up to the number of running handshakes |
| TunnelConfig.CheckTunnel | internal/tunnelconfig/config.go:218-288 | accepts exactly the tunnels that are fine on their own |
| TunnelConfig.ErrorsAreReal | internal/tunnelconfig/config.go:218-288 | every error speaks of a defect the tunnel has |
| TunnelConfig.Validate | internal/tunnelconfig/config.go:175-216 | no error exactly for a good configuration; a tunnel error names the first tunnel that spoils it |
| TunnelConfig.CheckAll | internal/tunnelconfig/config.go:190-215 | the map-based loop finds exactly the duplicate names and server ports |
| ListenerLock.PortLocks.Acquire | internal/listenerlock/lock.go:35-70 | locks a port exactly when it is free here and elsewhere, and tells the failures apart |
| ListenerLock.Lock.Close | internal/listenerlock/lock.go:73-84 | releases once: a second close cannot free the port under a later owner |
| Supervisor.StopKeeps | internal/daemon/daemon.go:226-243 | stopping a tunnel releases exactly its own resources |
| Supervisor.RefusalExact | internal/daemon/server.go:18-57 | a tunnel starts exactly when the surroundings grant it and, for a server, its port is free; every error has its own cause |
| Supervisor.ProtocolOf | internal/daemon/server.go:23-32 | exactly the UDP forwards are served under the datagram protocol |
| Supervisor.InstallHeld | internal/daemon/server.go:18-57 | a started tunnel holds what its handle claims and disturbs no other |
| Supervisor.InstallNoLeak | internal/daemon/server.go:18-57 | a start under a free name leaks nothing |
| Reloading.ByNameUnique | internal/daemon/daemon.go:256-262 | a validated configuration indexes to one owner per server port |
| Reloading.ByNameFinds | internal/daemon/daemon.go:256-262 | with distinct names no tunnel is shadowed |
| Reloading.InUseIsForeign | internal/daemon/daemon.go:175-183 | a port in use during a reload is in use by someone else, renames and swaps included, so a start is refused exactly as with the foreign ports alone |
| Reloading.RetryReadyOnlyInAgreement | internal/daemon/daemon.go:180-191 | reloading the recorded configuration is ready only when it runs completely |
| Reloading.UnreadyIsBroken | internal/daemon/daemon.go:169-174 | a state that is not ready shows a defect the start loop will meet |
| Reloading.OverwriteLeaks | internal/daemon/daemon.go:180-186 | overwriting a handle leaks its port or listener |
| Reloading.BrokenPersists | internal/daemon/daemon.go:175-187 | no start repairs such a defect |
| Daemons.Daemon.StartOne | internal/daemon/daemon.go:245-254 | a start succeeds with its handle entered or fails with nothing changed |
| Daemons.Daemon.StartListed | internal/daemon/daemon.go:121-128 | one round of Run fails exactly with the refusal of its tunnel and changes nothing, or keeps the tunnels so far in agreement |
| Daemons.Daemon.StopOne | internal/daemon/daemon.go:226-243 | removes handle, handler, listener and lock of one tunnel |
| Daemons.Daemon.StopChanged | internal/daemon/daemon.go:169-174 | in any order, stops exactly the recorded tunnels that changed or disappeared |
| Daemons.Daemon.StartChanged | internal/daemon/daemon.go:175-187 | in any order, leaves unchanged handles alone and from a state on course succeeds, in agreement, exactly if every new or changed tunnel is granted its start |
| Daemons.Daemon.Transition | internal/daemon/daemon.go:166-187 | both loops: agreement on success if and only if ready, success exactly if every new or changed tunnel is granted; a failure leaves a sound part of the new tunnels |
| Daemons.Daemon.Reload | internal/daemon/daemon.go:154-193 | success means agreement exactly when ready; from agreement it succeeds exactly if every new or changed tunnel is granted its start, and otherwise names one that is not; unchanged tunnels keep the identical handle; reloading the recorded tunnels changes nothing |
| Daemons.Daemon.Close | internal/daemon/daemon.go:206-220 | nothing of the daemon is left and other locks stay |
| Daemons.Run | internal/daemon/daemon.go:72-130 | succeeds exactly for a valid configuration whose tunnels are all granted with no server port taken; otherwise names the first that is not, with its error, and holds no lock, handler or listener |
| Daemons.RetryLosesTunnel | internal/daemon/daemon.go:154-193 | a reload that fails on a changed tunnel, followed by a reload of the recorded configuration that returns success without the tunnel |
| Relays.Sort | internal/daemon/daemon.go:268-275 | the in-place insertion sort is ascending, stable and a permutation |
| Relays.RelayAddrs | internal/daemon/daemon.go:268-281 | addresses in ascending priority, equal priorities in configuration order |
| Relays.StableIsPermutation | internal/daemon/daemon.go:264-267 | agreement on every priority class makes two lists permutations |
| ByteStream.Reader.ReadFull | protocol/datagram/frames.go:38-46 | for every fragmentation the first n bytes, or the two kinds of end |
| Bytes.BigEndian | session/forwarding.go:188-188 | in every number read from bytes the bytes in front count what all bytes behind them can hold |
| ByteStream.Writer.WriteAll | protocol/datagram/frames.go:50-64 | the whole value, or a start of it when the writer gives up; all of it if every call takes something |
| Datagram.Write | protocol/datagram/frames.go:22-35 | writes one whole frame, a start of one, or nothing when too large |
| Datagram.Read | protocol/datagram/frames.go:38-48 | reads one frame from any fragmentation |
| Datagram.ReadByBytes | protocol/datagram/frames.go:38-48 | what one read makes of a stream, with the length in two bytes, the more significant first |
| Datagram.Layout | protocol/datagram/frames.go:22-35 | the bytes of a frame |
| Datagram.ReadInvertsWrite | protocol/datagram/frames.go:22-48 | reading returns the written packet and leaves what follows |
| Datagram.CutPacketIsNotRead | protocol/datagram/frames.go:38-48 | a truncated frame yields no packet |
| Datagram.PrefixYieldsPrefix | protocol/datagram/frames.go:22-48 | any cut of encoded packets yields exactly a prefix of them |
| UdpForward.ForwardQueue | session/udp.go:204-218 | what reaches the stream is a cut of the encoded queue, and all of it if the stream takes what it is given |
| UdpForward.EmitToTarget | session/udp.go:45-58 | the target gets the packets of the received bytes, in order, until it refuses one |
| UdpForward.StepKeepsInv | session/udp.go:180-238 | every step keeps arrivals, queue, stream and emissions in order |
| UdpForward.EmittedAreArrivals | session/udp.go:117-238 | emitted packets are a subsequence of the arrivals with identical boundaries |
| UdpForward.ShedOnlyWhenFull | session/udp.go:117-238 | a datagram is shed only if its association is gone or 256 others wait |
| UdpForward.DeliveredInFull | session/udp.go:117-238 | with nothing shed and every stage drained exactly the arrived datagrams have reached the target |
| UdpTables.StepKeepsInv | session/udp.go:129-177 | associations and table slots own each other |
| UdpTables.OpenStreamsBounded | session/udp.go:129-177 | one open stream per source and at most 256 in total, in every interleaving |
| UdpTables.UdpTable.Lookup | session/udp.go:129-147 | finds or creates the association unless the table is full |
| UdpTables.UdpTable.RemoveSelf | session/udp.go:150-156 | an association removes only itself |
| PtyFrames.WriteFrame | protocol/pty/frames.go:21-31 | writes one whole frame, a start of one, or nothing when too large |
| PtyFrames.ReadFrame | protocol/pty/frames.go:33-47 | reads one frame from any fragmentation and tells the ends apart |
| PtyFrames.Layout | protocol/pty/frames.go:21-31 | the bytes of a frame: kind, four length bytes with the most significant first, data |
| PtyFrames.ReadAllInvertsWriteAll | protocol/pty/frames.go:21-47 | repeated reads return exactly the written frames and then a clean end |
| PtyFrames.PtyFrameDecoder.Push | packages/core/src/index.js:84-104 | drains the buffer; an oversized header throws, loses the frames of the call and stays |
| PtyFrames.PtyFrameDecoder.Finish | packages/core/src/index.js:106-108 | succeeds exactly with an empty buffer |
| PtyFrames.ChunkingIsIrrelevant | packages/core/src/index.js:84-104 | the result of all pushes does not depend on how the stream is cut |
| PtyFrames.OversizedForever | packages/core/src/index.js:92-96 | after an oversized header every later push throws |
| PtyFrames.DecoderAgreesWithGo | packages/core/src/index.js:81-113 | on every byte string both decoders find the same frames, and fail or finish together |
| PtyFrames.DecoderInvertsEncoder | packages/core/src/index.js:743-752 | encoded frames in any chunks come out exactly and finish succeeds |
| AuthenticatedStream.ConsumePrefix | packages/core/src/authenticated-stream.js:44-71 | for every chunking the prefix, and nothing of the rest lost; fails exactly on a short stream |
| AuthenticatedStream.Combine | packages/core/src/authenticated-stream.js:60-65 | the copy loop joins the chunks |
| AuthenticatedStream.WrappedStream.Iterate | packages/core/src/authenticated-stream.js:100-103 | the stream can be iterated once |
| AuthenticatedStream.WrappedStream.Next | packages/core/src/authenticated-stream.js:105-112 | yields the remainder first and then the unread chunks |
| AuthenticatedStream.DecodeAuthenticated | packages/core/src/authenticated-stream.js:73-125 | the decoder after authentication sees the frames of the stream without its admission frame |
| RouteRecord.UniqueSorts | protocol/routerecord/routerecord.go:301-334 | services and addresses become strictly ascending with the same elements |
| RouteRecord.CollectServices | protocol/routerecord/routerecord.go:301-315 | the loop with its seen map computes that list |
| RouteRecord.CollectAddresses | protocol/routerecord/routerecord.go:317-334 | so does the address loop, for every map order |
| RouteRecord.NormalizeIdempotent | protocol/routerecord/routerecord.go:260-283 | normalising twice equals once exactly when some service is not zero |
| RouteRecord.NormalizeAccepts | protocol/routerecord/routerecord.go:260-283 | exactly the records of version 1 with a peer, a lifetime, 1 to 64 services, at most 64 addresses and relays and known capabilities are accepted |
| RouteRecord.RoundTrip | protocol/routerecord/routerecord.go:181-258 | decoding an encoding gives the normal record exactly when some service is not zero |
| RouteRecord.AcceptedReencodes | protocol/routerecord/routerecord.go:249-257 | an accepted payload re-encodes to itself and its record is normal |
| RouteRecord.AcceptanceInjective | protocol/routerecord/routerecord.go:203-258 | no record has two accepted payloads |
| RouteRecord.PayloadFields | protocol/routerecord/routerecord.go:181-201 | the payload is a map with the keys 0 to 8 in order and the field each of them holds |
| Cbor.ParseInverts | protocol/routerecord/routerecord.go:40-58 | decoding inverts the deterministic encoding within the configured limits |
| Cbor.HeadLayout | protocol/routerecord/routerecord.go:40-58 | the five head forms of RFC 8949 by their bytes, always the shortest |
| Cbor.MajorTypes | protocol/routerecord/routerecord.go:181-201 | the first byte of an item tells numbers, texts, arrays and maps apart as RFC 8949 does |
| Ordering.LexExact | protocol/routerecord/routerecord.go:317-334 | address texts are ordered by their first differing byte, a text before its extensions |
| AuthPayload.AppendFields | nativewebrtc/wire.go:127-138 | the Go loop writes the delimited fields |
| AuthPayload.FillFields | packages/core/src/index.js:357-369 | the JavaScript loop fills its array with the same bytes |
| AuthPayload.FieldsInjective | nativewebrtc/wire.go:132-137 | the encoding of a field list determines the list |
| AuthPayload.BuildPayload | nativewebrtc/wire.go:95-139 | a payload exactly for claims within every limit |
| AuthPayload.PayloadLayout | nativewebrtc/wire.go:95-139 | the claims that are accepted, and the ten delimited fields of their payload in order |
| AuthPayload.DelimitedLayout | nativewebrtc/wire.go:132-137 | a field follows its length in four bytes, the most significant first |
| AuthPayload.PayloadDetermines | nativewebrtc/wire.go:91-139 | the payload determines peer, service, session, challenge and both SDP digests |
| AuthPayload.ResponseExact | nativewebrtc/wire.go:271-299 | decoding accepts exactly the encodings of its version |
| AuthPayload.ResponseLayout | nativewebrtc/wire.go:271-282 | the bytes of a response: version, two lengths with the more significant byte first, key and signature |
| AuthPayload.VerifyExact | nativewebrtc/wire.go:238-265 | a response is accepted exactly if it encodes a key of the expected peer and a valid signature of the expected payload |
| AuthPayload.ProofBoundToTranscript | nativewebrtc/wire.go:187-265 | a proof is accepted exactly for the identity and exchange it was made for |
| Admission.MacInputInjective | protocol/admission/admission.go:205-215 | the MAC input determines role, peer, service, timestamp and nonces |
| Admission.MacInputLayout | protocol/admission/admission.go:205-215 | the NUL-ended fields of the MAC input in order, followed by the nonces |
| Admission.FrameExact | protocol/admission/admission.go:161-191 | decoding accepts exactly the 62-byte encodings of its kind |
| Admission.FrameLayout | protocol/admission/admission.go:161-170 | the 62 bytes of a frame, the timestamp with its most significant byte first |
| Admission.HelloAgreement | protocol/admission/admission.go:42-81 | a hello is accepted exactly with the same valid token and a timestamp at most the skew away from now |
| Admission.HelloExact | protocol/admission/admission.go:58-81 | nothing but a hello of the own token made for a time within the skew is accepted, and that always is |
| Admission.AckAgreement | protocol/admission/admission.go:83-115 | an acknowledgement is accepted exactly when both sides agree on token, timestamp and client nonce |
| Admission.AckExact | protocol/admission/admission.go:97-115 | nothing but an acknowledgement of this hello under the same token is accepted |
| Admission.RolesNeverMix | protocol/admission/admission.go:172-191 | a hello can never serve as an acknowledgement |
| Admission.AuthenticateServer | protocol/admission/admission.go:137-159 | consumes exactly the admission frame, answers only an accepted hello, and succeeds for one if the stream takes the answer |
| Admission.AuthenticateClient | protocol/admission/admission.go:117-135 | sends its hello, accepts only a confirming frame, and succeeds with one if the stream takes the hello |
| Socks.Negotiate5Exact | session/forwarding.go:130-189 | acceptance if and only if a no-authentication greeting and a CONNECT request lead the stream; the port is 256 times its first byte plus its second, and the bytes that follow stay unread |
| Socks.Negotiate5Replies | session/forwarding.go:130-149 | the method reply to every greeting |
| Socks.ConnectRefusals | session/forwarding.go:150-188 | which requests are refused and which are cut short |
| Socks.Negotiate5 | session/forwarding.go:130-149 | the parser computes that for every fragmentation, with its method reply |
| Socks.ReadRequest5 | session/forwarding.go:150-188 | the request part of the parser |
| Socks.ReadAddress5 | session/forwarding.go:157-181 | the three address types |
| Socks.FieldExact | session/forwarding.go:222-238 | a field is read exactly when the stream starts with it and a NUL |
| Socks.FieldFailures | session/forwarding.go:222-238 | a field is too long exactly with more bytes than allowed before any NUL, and short exactly when the stream ends first |
| Socks.ReadField | session/forwarding.go:222-238 | the byte loop computes that and never reaches its panic |
| Socks.Negotiate4Complete | session/forwarding.go:191-220 | every well-formed SOCKS4 or 4a CONNECT gives its host, the port of its two bytes, most significant first, and the replies that repeat them |
| Socks.Negotiate4Refusals | session/forwarding.go:191-220 | which requests are refused and which are cut short |
| Socks.Negotiate4Sound | session/forwarding.go:191-220 | nothing else is accepted |
| Socks.Negotiate4 | session/forwarding.go:191-220 | the parser computes that for every fragmentation |

## Left out

- Pion, libp2p, WebSocket, DHT, mDNS, GossipSub, process, PTY and service-manager calls: foreign libraries and I/O.
- Progress of writers parked during a disconnect: a write waiting for a transport holds the lock that failing the stream needs, so only safety is claimed.
- An exact 120-second grace period: a stale timer may run after a second detach.
- The JavaScript `WebRtcStream` credit counter: its decrement on a failed send is not clamped, so the Go accounting does not carry over.
- Stream.Close and Stream.Reset: compositions of CloseWrite, the failure steps and the abort frame, covered by the actions of FlowNet.
- Agreement after a failed Reload: the code does not establish it; the exact condition is proved instead.
- Concurrent calls of Reload: the model runs one at a time.
- A client stream that meets a new listener stream after the listener dropped the old one: FlowTransports follows one pair of streams.
- A listener without an onStream callback: it announces nothing.
- Loading the node identity and constructing the node before the first reload, and nil configurations: library calls and argument checks that precede the modelled state.
- Supervisor.Refusal: failures of parsing the listen address, opening the first UDP carrier and binding are one outcome of the environment.
- The text form of protocol identifiers: two prefixes and the port are represented as a datatype.
- CBOR major types that route records never contain, and UTF-8 validation: such input is refused here earlier than by the library or by the re-encoding check.
- Raw multiaddr and peer-ID values: represented by their canonical text.
- The signed route-record envelope, pairing tokens and token files: they repeat the payload proof around library calls.
- The reply direction of the UDP path: the same framing the other way.
- Timeouts of the SOCKS handshake and of prefix consumption: clocks only.
- CLI flags, paths, permissions, web interface, translations and the soak runner: finite checks and plumbing.
