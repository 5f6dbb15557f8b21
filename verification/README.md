# Capybara: a verified model of request framing, migration, proxying and load control

Capybara moves live TCP connections between servers. This project models, in Dafny, the stateful
algorithms its applications and its control plane consist of, and proves what they promise together.

**One connection.** `Framing` cuts a byte stream at the header terminator CR LF CR LF (section 2.1 of
RFC 9112). `StreamBuffer` is the fixed 4096-byte head/tail buffer of the HTTP server and the loop that
feeds it, with the path without a copy and the path that copies, searches and shrinks. `Connection` is
the application state that moves with a connection; `Fragmentation` cuts the encoded state into
packets and joins them again in whatever order they arrive. `MigratedStream` puts these together: the
requests a client gets answered depend on its bytes alone, not on how they were chunked nor on where
the connection was migrated. It also says exactly which runs overflow the buffer, and exactly when a
sequence of chunks that one host survives goes through wherever the connection migrates: not always,
because the buffer is compacted at different moments.

**Event loops.** `Tokens` treats the vector of outstanding operations and the ways completed ones are
taken out. `HttpProtocol` is the HTTP server's loop as a state machine over completions, manual
migration included; `HttpServer` is the code over its mutable state, proved to follow that machine.
`MultiServer` does the same for the server that gives up only connections that wait for a request.

**The proxy.** `ProxyFrontEnd` tags each request with the client's descriptor, `ProxyBackEnd` parses
one shared stream and echoes tags, `RoundRobin` is the queue of backends. `ProxySystem` is the whole
distributed system, front end, any number of backends and the first-in-first-out byte channels between
them, as a state machine: a run panics exactly when a backend reads more than its buffer has room for;
over every other run every accepted request is answered or still in flight, no client gets a response
it did not ask for, backends answer in order, and load is balanced to within one request.
`ProxyOverrun` is a run that panics.

**Load control.** `SlotAllocator` and `Apportionment` model the distribution of weighted-round-robin
slots by the switch's monitor, `Monitor` the register table that realises it.

**Experiment tooling.** `WorkloadSpec` is the generator of load schedules, `MigrationLog` the automaton
that finds migrations in the servers' time logs.

Code that works in place is modelled by classes and methods with loops, each proved to compute a
function; the properties are proved about those functions and about whole runs. A panic is the result
`None` of such a function, and the method requires that it does not happen; the exact condition for a
panic is proved for chunks (`StreamBuffer.PushStepIsGreedySplit`), for whole runs of a connection
(`MigratedStream.CapacityExact`), for the HTTP server's completions (`HttpProtocol.PopPanicsOnlyOnOverflow`,
`HttpProtocol.AcceptPanicsIff`) and for whole runs of the proxy (`ProxySystem.RunPanicsIff`).

## Where the code does not do what one would think

- A connection that migrates keeps its unread bytes at the front of the new buffer, while an unmigrated
  one is compacted only when the buffer is filled to its last byte; so a migrated run can overflow where
  the unmigrated one does not. Five TCP segments of ordinary size do it
  (`MigratedStream.MigrationCanOverflow`); when it cannot happen is known exactly
  (`MigratedStream.MigrationsHarmlessIff`).
- A proxy backend that reads requests out of step with their boundaries never empties its buffer, and
  panics when the write position reaches the end: five requests of 1024 bytes, tag included, read as
  1023, 1024, 1024, 1024 and 1024 bytes (`ProxyOverrun.FiveReadsPanic`). Exactly such reads make the proxy panic
  (`ProxySystem.RunPanicsIff`); none does if no read takes the bytes copied since the buffer was last
  empty beyond 4096 (`ProxySystem.BoundedRunsGoThrough`).
- In manual migration mode the HTTP server panics when the LibOS hands out the descriptor of a
  connection that failed before it had completed its pops, because its counter is never removed
  (`HttpProtocol.AcceptPanicsIff`, `HttpProtocol.ReusedDescriptorPanics`).
- `data.len() - 4` (examples/rust/http-server.rs:246) wraps for chunks shorter than four bytes. The
  release profile (Cargo.toml:190-198) compiles without overflow checks, which is what is modelled: the
  comparison then is never true, and `StreamBuffer.FastPathIff` holds for every chunk.
- The packet number of a fragmented payload is 16 bits wide, and the size check of `send` lets payloads
  through for which it wraps: a stray empty packet follows (`Fragmentation.FragmentsOfPayload`).
- `reset` leaves the defragmenter's byte count alone, so later payloads on the same defragmenter carry
  trailing zeros (`Fragmentation.ReassemblyInAnyOrder`); the state they carry is decoded all the same
  (`Connection.MigrationPreservesConnection`). A packet delivered twice is counted twice and spoils the
  payload (`Fragmentation.DuplicateCompletesEarly`); the payload is handed over exactly when no packet
  comes twice before the last missing one (`Fragmentation.ReassemblyIff`).
- With a `MIG_PER_N` of zero or less, a connection is migrated after its first pop, except that the least
  32-bit value wraps and allows 2^31 pops (`HttpProtocol.PopLimit`).
- The slot distribution may give the backend with the larger weight fewer slots, for four backends
  exactly if the number of slots is odd (`Apportionment.FairIffEven`); loads 0 and 1 weigh the same
  (`SlotAllocator.WeightsOrderLoads`).
- The description of `migrations` (AE/fig14/parse_miglat.py:55-56) says that an interleaved migration
  is dropped; the code resynchronises on INIT_MIG and leaves its timestamp in front of the row
  (`MigrationLog.RowWidth`, `MigrationLog.ResyncShiftsRow`). Events of equal time are sorted by name,
  which can tear a migration apart, be it by its own events or by an earlier one
  (`MigrationLog.TiesLoseMigration`, `MigrationLog.StrayEventLosesMigration`).
- The first level of a schedule is printed without the stress factor (`WorkloadSpec.FormatOutput`).

## Assumptions about the environment

The LibOS, the network, randomness and clocks are inputs. `HttpProtocol.Legal`, `MultiServer.Legal`,
`MultiServer.Legitimate` and `ProxySystem.Enabled` say what they may do: a result fits the operation it
completes, a new descriptor is not in use, migrated state holds no complete request (a server of this
kind never sends one), a backend registers once and before any request, a request from a client is popped whole and
carries a descriptor below 2^31, no terminator spans its tag, a backend's response is popped whole. How much of its stream a
backend reads at a time is not restricted.

## Model

| member | source | states |
|---|---|---|
| Bytes.U32RoundTrip | examples/rust/http-server.rs:304-314 | a length survives its big-endian encoding up to the truncation of the cast `as u32` |
| Bytes.BigEndian | examples/rust/http-server.rs:132 | the encoded bytes are those of the length modulo 2^32, the most significant first |
| Framing.FindSubsequence | examples/rust/http-server.rs:235-239 | the position found holds the needle and no earlier one does; none is found only if there is none |
| Framing.SplitSound | examples/rust/http-server.rs:260-275 | cutting at the first terminator, again and again, loses no byte, yields only complete requests, and leaves a rest without a terminator |
| Framing.SplitIsUnique | examples/rust/http-server.rs:260-275 | that split is the only decomposition of a stream into complete requests and an unfinished rest |
| Framing.SplitAppend | examples/rust/http-server.rs:260-275 | a stream may be cut anywhere: the split of the whole is the split of the first part, followed by the split of its rest with the second part |
| StreamBuffer.FastPathIff | examples/rust/http-server.rs:244-252 | the guard of the path without a copy admits exactly the chunks that are one complete request, also when the subtraction wraps |
| StreamBuffer.FastPathRefinesSlowPath | examples/rust/http-server.rs:245-275 | on an empty buffer the path without a copy answers and leaves behind what copying, searching, pulling and shrinking would |
| StreamBuffer.PushStepIsGreedySplit | examples/rust/http-server.rs:241-276 | a chunk is refused exactly if it is copied and does not fit; otherwise the requests answered are the split of unread bytes and chunk, and the buffer keeps the rest, rewound if empty |
| StreamBuffer.Buffer.constructor | examples/rust/http-server.rs:73-79 | a new buffer is empty |
| StreamBuffer.Buffer.FillEmptyBuf | examples/rust/http-server.rs:99-101 | a chunk lands in the free part; unread bytes and everything behind the chunk stay |
| StreamBuffer.Buffer.PushData | examples/rust/http-server.rs:89-92 | the bytes behind the head become unread bytes |
| StreamBuffer.Buffer.PullData | examples/rust/http-server.rs:94-97 | the tail moves forward, not beyond the head |
| StreamBuffer.Buffer.TryShrink | examples/rust/http-server.rs:103-122 | unread bytes stay the same; an empty buffer is rewound, a buffer filled to its last byte compacted, any other left alone |
| StreamBuffer.Buffer.TakeRequest | examples/rust/http-server.rs:263-269 | the request cut off is the front of the unread bytes and leaves the buffer |
| StreamBuffer.Buffer.CopyAndRun | examples/rust/http-server.rs:254-275 | the loop over a copied chunk answers the greedy split, in order, and ends in the buffer the specification says |
| StreamBuffer.Buffer.PushDataAndRun | examples/rust/http-server.rs:241-276 | one received chunk changes the buffer and answers requests as the step function says |
| StreamBuffer.Buffer.Serialize | examples/rust/http-server.rs:131-134 | exactly the slice's first bytes become length and unread bytes |
| StreamBuffer.Buffer.Deserialize | examples/rust/http-server.rs:136-142 | a new buffer with the decoded bytes at its front |
| Connection.ConnRoundTrip | examples/rust/http-server.rs:299-333 | decoding restores the unread bytes from any offset and with any trailing bytes; session data and encoded size survive exactly if the session is shorter than 2^32 bytes |
| Connection.EncodingLayout | examples/rust/http-server.rs:323-326 | on the wire come the number of unread bytes, these, the session's length, its data |
| Connection.MigrationPreservesConnection | src/rust/inetstack/protocols/tcp/peer.rs:1335-1365 | a connection's state, behind its control block, cut into packets that arrive in any order, on a new or a used defragmenter, is decoded on the target as it was |
| Connection.ConnectionState.Serialize | examples/rust/http-server.rs:323-326 | writes the encoding of buffer and session at the front and nothing behind |
| Connection.ConnectionState.Deserialize | examples/rust/http-server.rs:328-332 | builds a new connection state with the decoded value |
| Connection.SerializeSession | examples/rust/http-server.rs:304-307 | writes length and data from the given position and nothing else |
| Connection.DeserializeSession | examples/rust/http-server.rs:309-314 | yields the decoded session data |
| Fragmentation.Fragmenter.Next | src/rust/inetstack/protocols/tcpmig/segment/mod.rs:138-163 | each call yields the next packet of the sequence until it is exhausted |
| Fragmentation.PacketSizes | src/rust/inetstack/protocols/tcpmig/segment/mod.rs:146-159 | no packet carries more than 1452 bytes, each that is not the last exactly as many; they are numbered in order, modulo 2^16 |
| Fragmentation.PacketsCarry | src/rust/inetstack/protocols/tcpmig/segment/mod.rs:146-156 | the bytes of all packets, one after the other, are the payload |
| Fragmentation.FragmentsOfPayload | src/rust/inetstack/protocols/tcpmig/segment/mod.rs:135-164 | a payload becomes its pieces, numbered from zero, exactly if it is no longer than 65535 full packets; beyond that a stray empty packet follows |
| Fragmentation.PiecesJoin | src/rust/inetstack/protocols/tcpmig/segment/mod.rs:146-156 | the pieces joined are the payload |
| Fragmentation.Send | src/rust/inetstack/protocols/tcpmig/active.rs:286-309 | all packets of the payload are transmitted, in order |
| Fragmentation.ReceiveOutcome | src/rust/inetstack/protocols/tcpmig/segment/defragmenter.rs:41-97 | packets of one payload in any order and any number: the reassembly completes with the arrival whose number is the number of packets, if the last packet is among them, and never otherwise |
| Fragmentation.ReassemblyInAnyOrder | src/rust/inetstack/protocols/tcpmig/segment/defragmenter.rs:41-97 | if the first as many arrivals as there are packets are different packets, they yield the payload in whatever order, followed by as many zeros as bytes were counted before |
| Fragmentation.ReassemblyIff | src/rust/inetstack/protocols/tcpmig/segment/defragmenter.rs:41-97 | and only if: any other arrivals, repeated or incomplete, yield nothing or something else, for every payload that does not end in a zero byte |
| Fragmentation.DuplicateCompletesEarly | src/rust/inetstack/protocols/tcpmig/segment/defragmenter.rs:64-72 | an input on which that fails: the second packet of any two-packet payload, delivered twice, completes a wrong payload |
| Fragmentation.Defragmenter.Receive | src/rust/inetstack/protocols/tcpmig/segment/defragmenter.rs:41-90 | one packet changes the reassembly as specified and returns the payload when it is complete |
| Fragmentation.Defragmenter.Extend | src/rust/inetstack/protocols/tcpmig/segment/defragmenter.rs:58-63 | empty pieces are added up to the packet's position |
| Fragmentation.Defragmenter.Join | src/rust/inetstack/protocols/tcpmig/segment/defragmenter.rs:78-84 | the pieces one after the other, then zeros up to the counted size |
| Fragmentation.Defragmenter.Clear | src/rust/inetstack/protocols/tcpmig/segment/defragmenter.rs:92-96 | everything is reset but the byte count |
| MigratedStream.RunIsGreedySplit | examples/rust/http-server.rs:241-276 | over any run of chunks and migrations the requests answered are the split of all bytes sent, the buffer holds the unfinished rest, and session data is kept |
| MigratedStream.ChunkingAndMigrationIndependence | examples/rust/http-server.rs:241-333 | two runs over the same bytes, chunked and migrated differently, answer the same requests and hold the same rest |
| MigratedStream.CapacityExact | examples/rust/http-server.rs:89-122 | a run, migrations included, goes through exactly if every copied chunk fits behind the write position it meets; it does if at most 4096 bytes are copied between two moments of an empty buffer, and only if so when there is no migration and the buffer is never filled to its last byte |
| MigratedStream.MigrationsHarmlessIff | examples/rust/http-server.rs:103-142 | a sequence of chunks goes through with migrations anywhere exactly if it fits on one host and, from every point on, also behind unread bytes moved to the front |
| MigratedStream.MigrationIsSafe | examples/rust/http-server.rs:103-142 | in particular if it goes through on one host and the buffer is never filled to its last byte |
| MigratedStream.MigrationCanOverflow | examples/rust/http-server.rs:110-120 | an input on which it does not: five chunks of at most one TCP segment, which one host handles and which panic after a migration |
| Tokens.SwapRemoveCounts | examples/rust/http-server.rs:402 | swap-removal takes out exactly the token at the index |
| Tokens.ReversedRemovalIsFilter | examples/rust/http-server.rs:400-402 | a batch taken out by reversed swap-removal, with tokens pushed in between, leaves exactly the tokens not completed and those issued |
| Tokens.RemovalConserves | examples/rust/proxy-server-fe.rs:274-276 | old and issued tokens are the completed and the remaining ones |
| Tokens.FilteredCounts | examples/rust/tcpmig-server-multi.rs:118-120 | filtering by position takes out exactly the completed tokens, whatever the order of the indices |
| Tokens.FilteredKeepsOrder | examples/rust/tcpmig-server-multi.rs:118-120 | the other tokens stay, each once and in their order |
| HttpProtocol.CountdownStep | examples/rust/http-server.rs:480-482 | a decrement, wrapping included, counts the pops and stays positive exactly while pops are left |
| HttpProtocol.ChunkKeepsConn | examples/rust/http-server.rs:470-472 | a chunk keeps the connection's answers the split of its bytes |
| HttpProtocol.PopPanicsOnlyOnOverflow | examples/rust/http-server.rs:467-472 | a completed pop finds its connection and panics exactly if the chunk is copied and does not fit |
| HttpProtocol.AcceptPanicsIff | examples/rust/http-server.rs:412-442 | a completed accept panics exactly if the migrated state does not decode or, in manual mode, the descriptor's last connection failed before completing its pops |
| HttpProtocol.ReusedDescriptorPanics | examples/rust/http-server.rs:441-442 | a run on which it does: a connection is accepted, its pop fails, and its descriptor is accepted again |
| HttpProtocol.AcceptedConnection | examples/rust/http-server.rs:412-445 | a connection that migrated in continues as its origin encoded it, any other starts with an empty buffer and a session of the configured size; no other connection changes |
| HttpProtocol.PopHistory | examples/rust/http-server.rs:467-475 | a completed pop puts exactly its bytes through its connection's buffer, and touches no other connection |
| HttpProtocol.PopPushes | examples/rust/http-server.rs:247-270 | as many responses are pushed as requests were cut off, all to the popped connection |
| HttpProtocol.ReachableNoted | examples/rust/http-server.rs:397-527 | in every reachable state the history of each connection is what the completions alone say, and as many responses are under way as requests were received and not yet answered |
| HttpProtocol.HandleKeepsInv | examples/rust/http-server.rs:407-526 | each completion keeps the invariant of tokens, buffers and counters |
| HttpProtocol.BatchKeepsInv | examples/rust/http-server.rs:397-527 | so does a batch, processed last completion first |
| HttpProtocol.ReachableInv | examples/rust/http-server.rs:367-527 | the invariant holds in every reachable state |
| HttpProtocol.EveryConnectionAnswered | examples/rust/http-server.rs:467-475 | over every run each connection was answered the split of the bytes it came with and of those the completions brought, and holds the rest |
| HttpProtocol.ManualMigrationAfterLimit | examples/rust/http-server.rs:442-506 | over every run one accept is outstanding; a connection has one pop outstanding exactly until it completed its number of pops, counted from the completions, then migration is initiated once and no pop follows |
| HttpServer.EventLoop.NewConnection | examples/rust/http-server.rs:412-430 | a new connection's state is the migrated one or an empty buffer with a session of the configured size |
| HttpServer.EventLoop.Insert | examples/rust/http-server.rs:445 | the new state is registered under its descriptor and no other connection changes |
| HttpServer.EventLoop.Feed | examples/rust/http-server.rs:470-472 | the chunk changes this connection's buffer and no other one's |
| HttpServer.EventLoop.OnAccept | examples/rust/http-server.rs:408-461 | a completed accept changes the mutable state as the protocol says |
| HttpServer.EventLoop.OnPop | examples/rust/http-server.rs:467-513 | so does a completed pop, the call of `initiate_migration` included |
| HttpServer.EventLoop.OnCompletion | examples/rust/http-server.rs:407-526 | so does any completion |
| HttpServer.EventLoop.ProcessBatch | examples/rust/http-server.rs:397-527 | one turn of the loop follows the protocol's batch step |
| MultiServer.HandleKeepsInv | examples/rust/tcpmig-server-multi.rs:121-152 | no completion reaches the unreachable case, and each keeps the invariant |
| MultiServer.BatchKeepsInv | examples/rust/tcpmig-server-multi.rs:117-153 | so does a batch of completions in any order |
| MultiServer.ReleaseKeepsInv | examples/rust/tcpmig-server-multi.rs:159-174 | the token of a migratable connection is always found, and giving up the connection keeps the invariant |
| MultiServer.ReachableInv | examples/rust/tcpmig-server-multi.rs:102-176 | the invariant holds in every reachable state |
| MultiServer.ReachableNoted | examples/rust/tcpmig-server-multi.rs:117-175 | in every reachable state the history of each connection is what the completions and releases alone say |
| MultiServer.OneOperationPerConnection | examples/rust/tcpmig-server-multi.rs:106-176 | over every run one accept; a connection not given up has a pop outstanding if it answered all it popped, else a push, never both; none for others; no next step fails |
| MultiServer.MigratableIsIdle | examples/rust/tcpmig-server-multi.rs:130-145 | a connection is migratable exactly while it waits for a request after having answered all before; only such connections were ever given up |
| MultiServer.EventLoop.OnCompletion | examples/rust/tcpmig-server-multi.rs:122-151 | one completion changes the mutable state as specified |
| MultiServer.EventLoop.ProcessBatch | examples/rust/tcpmig-server-multi.rs:117-153 | a poll's completions change it as specified |
| MultiServer.EventLoop.PollMigrations | examples/rust/tcpmig-server-multi.rs:155-175 | at most one connection is given up, a migratable one that is safe; none only if no migratable one is safe |
| RoundRobin.BetweenDispatches | examples/rust/proxy-server-fe.rs:326-327 | between two dispatches to a backend each other backend queued then is dispatched to exactly once, in order, whoever joins meanwhile |
| RoundRobin.DispatchesBalanced | examples/rust/proxy-server-fe.rs:309-327 | of two backends the one in front was dispatched to as often as the other, or once less if it fell behind |
| RoundRobin.DispatchCountsWithinOne | examples/rust/proxy-server-fe.rs:309-327 | the dispatch counts of two registered backends differ by at most one |
| ProxyFrontEnd.TagRoundTrip | examples/rust/proxy-server-fe.rs:318-328 | a descriptor survives encoding and decoding of the tag exactly if it fits a signed 32-bit integer |
| ProxyFrontEnd.TaggedFrame | examples/rust/proxy-server-fe.rs:328-330 | tag and request are one frame for the backend exactly if no terminator spans the tag |
| ProxyFrontEnd.OrdinaryRequestIsSafe | examples/rust/proxy-server-fe.rs:328-330 | for a request that begins with neither CR nor LF only the tag 0x0D0A0D0A clashes |
| ProxyFrontEnd.FrontEndLoop.AcceptCompleted | examples/rust/proxy-server-fe.rs:282-296 | a new connection counts as a client |
| ProxyFrontEnd.FrontEndLoop.PopCompleted | examples/rust/proxy-server-fe.rs:302-332 | registration, response and request change the state and push the message as specified |
| ProxyBackEnd.BackEndRunFrames | examples/rust/proxy-server-be.rs:204-239 | however a stream is chunked, its complete frames are answered in order and the buffer holds the rest |
| ProxyBackEnd.FramesRecovered | examples/rust/proxy-server-be.rs:218-238 | any chunking of a stream of tagged requests, read without a panic, answers exactly these and leaves the buffer empty |
| ProxyBackEnd.BackEndRunIff | examples/rust/proxy-server-be.rs:94-127 | a stream is read without a panic exactly if every copied chunk fits, in particular if at most 4096 bytes are copied between two moments of an empty buffer |
| ProxyBackEnd.BackEndPopFrames | examples/rust/proxy-server-be.rs:204-239 | a chunk's complete frames are answered, the rest is held |
| ProxyBackEnd.BackEndLoop.RespondToRequest | examples/rust/proxy-server-be.rs:192-194 | the response carries the request's tag and the prepared body, which stays |
| ProxyBackEnd.BackEndLoop.RespondAll | examples/rust/proxy-server-be.rs:223-238 | every request is answered, in order |
| ProxyBackEnd.BackEndLoop.PopCompleted | examples/rust/proxy-server-be.rs:314-322 | a popped chunk changes the shared buffer and pushes responses as specified |
| ProxySystem.DispatchKeepsLink | examples/rust/proxy-server-fe.rs:325-330 | a dispatched request joins the end of what its backend still has to answer |
| ProxySystem.ReceiveKeepsLink | examples/rust/proxy-server-be.rs:314-322 | however a backend receives its bytes, what is in flight stays the same, in the same order |
| ProxySystem.ReplyKeepsLink | examples/rust/proxy-server-fe.rs:316-322 | a routed response is the first in flight on its link, and leaves it |
| ProxySystem.RequestKeeps | examples/rust/proxy-server-fe.rs:325-330 | a client's request does not panic and keeps the system's invariant |
| ProxySystem.ReplyKeeps | examples/rust/proxy-server-fe.rs:316-322 | so does a response: its tag names a client that asked |
| ProxySystem.RegisterKeeps | examples/rust/proxy-server-fe.rs:308-313 | so does the registration of a backend |
| ProxySystem.ReceiveKeeps | examples/rust/proxy-server-be.rs:314-322 | a backend's read panics exactly if it has no room in the buffer, and otherwise keeps the invariant |
| ProxySystem.OverrunsIff | examples/rust/proxy-server-be.rs:217-219 | whether it has room is known from the chunks the backend read before |
| ProxySystem.StepKeepsInv | examples/rust/proxy-server-fe.rs:274-332 | no other step of the system panics, and each keeps the invariant |
| ProxySystem.RunKeepsInv | examples/rust/proxy-server-fe.rs:271-345 | so over every run that goes through |
| ProxySystem.RunPanicsIff | examples/rust/proxy-server-be.rs:217-219 | a run panics exactly if it reaches a read that has no room |
| ProxySystem.BoundedRunsGoThrough | examples/rust/proxy-server-be.rs:94-127 | no run panics in which no read takes the bytes copied since the backend's buffer was last empty beyond its size |
| ProxyOverrun.FiveReadsPanic | examples/rust/proxy-server-be.rs:217-219 | a run from the start that panics: five full requests, read one byte out of step |
| ProxySystem.RequestsConserved | examples/rust/proxy-server-fe.rs:316-330 | every run panics exactly if it reaches a read that has no room; over any other, for each client, accepted requests are responses delivered to it plus what is in flight for it; no client that did not ask gets a response; responses are what backends said |
| ProxySystem.BackendsAnswerInOrder | examples/rust/proxy-server-be.rs:204-239 | over every run: the clients served by a backend are a prefix of those dispatched to it, and the others are in flight in order |
| ProxySystem.DrainedMeansAnswered | examples/rust/proxy-server-be.rs:223-238 | once the channels are empty every accepted request has been answered |
| ProxySystem.RunIsRoundRobin | examples/rust/proxy-server-fe.rs:309-327 | the requests dispatched to a backend during any run are its turns in the round robin |
| ProxySystem.LoadIsBalanced | examples/rust/proxy-server-fe.rs:326-327 | from any moment on two registered backends are given equally many requests, give or take one |
| SlotAllocator.CalculateWeights | p4/switch_fe/capybara_switch_fe_monitor.py:15-31 | the weights are the greatest load over each load, all equal without any load |
| SlotAllocator.WeightsAreInverse | p4/switch_fe/capybara_switch_fe_monitor.py:15-31 | a weight times its load is the greatest load; an idle backend weighs as much as the greatest load; without any load all weigh one |
| SlotAllocator.WeightsOrderLoads | p4/switch_fe/capybara_switch_fe_monitor.py:15-31 | every weight is positive, and a weight is larger exactly if the load is lower, loads 0 and 1 counting as equal |
| SlotAllocator.FloorSlots | p4/switch_fe/capybara_switch_fe_monitor.py:39-41 | the first loop cuts each share to an integer and raises it to one |
| SlotAllocator.BaseIsFloor | p4/switch_fe/capybara_switch_fe_monitor.py:39-41 | each backend starts with the integer part of its share, or one slot if that is less than one |
| SlotAllocator.AddMissing | p4/switch_fe/capybara_switch_fe_monitor.py:43-45 | the second loop gives all missing slots to the first heaviest backend |
| SlotAllocator.TakeOne | p4/switch_fe/capybara_switch_fe_monitor.py:46-54 | one turn of the third loop takes a slot from the lightest backend if it can spare one, else from the first that can |
| SlotAllocator.TrimStepTakes | p4/switch_fe/capybara_switch_fe_monitor.py:46-54 | the lightest backend loses the slot if it has more than one, else the first backend with more than one, and nobody if there is none |
| SlotAllocator.TrimStepProgress | p4/switch_fe/capybara_switch_fe_monitor.py:46-54 | as long as there are more slots than backends a turn takes exactly one slot and leaves none without; otherwise it changes nothing |
| SlotAllocator.TooFewSlotsNeverEnds | p4/switch_fe/capybara_switch_fe_monitor.py:46-54 | with fewer slots than backends no number of turns ends the third loop |
| SlotAllocator.DistributeSlots | p4/switch_fe/capybara_switch_fe_monitor.py:33-56 | the three loops end and compute the distribution, for any weights that are not negative |
| SlotAllocator.DistributeByTurns | p4/switch_fe/capybara_switch_fe_monitor.py:39-56 | the result is the raised shares, all missing slots at the first heaviest backend, and as many turns of trimming aimed at the first lightest one as there are slots too many |
| Apportionment.DistributionNearShares | p4/switch_fe/capybara_switch_fe_monitor.py:33-56 | all slots are handed out, every backend gets one, and none is as far as the number of backends from its proportional share |
| Apportionment.WeightsDistributable | p4/switch_fe/capybara_switch_fe_monitor.py:15-37 | the weights of any loads are positive and can be distributed |
| Apportionment.FairWhenEven | p4/switch_fe/capybara_switch_fe_monitor.py:8-56 | with four backends and an even number of slots, sixteen as shipped, a larger weight never gets fewer slots |
| Apportionment.UnfairWhenOdd | p4/switch_fe/capybara_switch_fe_monitor.py:46-54 | for every odd number of slots from five on, weights whose largest gets fewer slots than the second |
| Apportionment.FairIffEven | p4/switch_fe/capybara_switch_fe_monitor.py:8-56 | four backends are treated fairly under all loads exactly if the number of slots is even |
| Monitor.FillRegisters | p4/switch_fe/capybara_switch_fe_setup.py:310-319 | the sixteen registers hold the ports 10000 to 10003 four times over, in this order, which realises four slots for each port |
| Monitor.TableCounts | p4/switch_fe/capybara_switch_fe_monitor.py:58-66 | the table holds each port as often as it has slots, and as many registers as there are slots |
| Monitor.TableBlocks | p4/switch_fe/capybara_switch_fe_monitor.py:58-66 | the registers of a port, 10000 and its number, form one block, the blocks in order of the ports |
| Monitor.WrrMonitor.UpdateBackendRegisters | p4/switch_fe/capybara_switch_fe_monitor.py:58-66 | the first registers become the table of the slots, the others stay |
| Monitor.WrrMonitor.Poll | p4/switch_fe/capybara_switch_fe_monitor.py:105-112 | after a turn the registers realise the slots for the loads read; they are written only if the slots changed |
| Monitor.WrrMonitor.Run | p4/switch_fe/capybara_switch_fe_monitor.py:72-112 | so after any sequence of readings |
| WorkloadSpec.Generate | eval/workload_spec_generator.py:67-99 | whatever is drawn, a phase opens with the shortest transition and a level at the start rate, alternates, ends with a level, draws later rates and all durations from their ranges, prolongs or cuts only its last level, and lasts exactly the time given if its opening fits |
| WorkloadSpec.GenerateRpsUpperLimits | eval/workload_spec_generator.py:101-114 | each limit is within bounds and together they never exceed the total; none stays below the range it is drawn from unless the total is used up |
| WorkloadSpec.Schedules | eval/workload_spec_generator.py:116-138 | every backend's schedule alternates, lasts exactly the total time and meets every phase boundary; phase by phase it opens at its limit and keeps to it, and the limits of a phase sum to at most the total |
| WorkloadSpec.ExtendSchedule | eval/workload_spec_generator.py:132-136 | a phase appended to a schedule keeps alternation, exact time and all boundaries |
| WorkloadSpec.SumPermuted | eval/workload_spec_generator.py:112-114 | shuffling keeps the sum of the limits |
| WorkloadSpec.CalcTotalTime | eval/workload_spec_generator.py:19-24 | the total time is the sum of all durations |
| WorkloadSpec.FormatOutput | eval/workload_spec_generator.py:26-31 | every segment is printed with its duration; the first level at its rate, every later one at its rate times the stress factor, cut to an integer, and ramps run from that value of the level before to that of the level after; no index is out of range |
| MigrationLog.StartedNext | AE/fig14/parse_miglat.py:66-83 | an event that fits extends the longest migration under way, any other abandons it or begins a new one |
| MigrationLog.Walk | AE/fig14/parse_miglat.py:64-83 | the automaton yields the rows of the completed migrations of one connection, in order |
| MigrationLog.SortedIff | AE/fig14/parse_miglat.py:63 | sorting yields the only arrangement of the events by time and then by name |
| MigrationLog.RanksAreAlphabetical | AE/fig14/parse_miglat.py:23-24 | events of equal time are sorted by the alphabetical order of their steps' names |
| MigrationLog.GroupByConnection | AE/fig14/parse_miglat.py:58-60 | connections in order of first appearance, each with its events in order |
| MigrationLog.Migrations | AE/fig14/parse_miglat.py:52-83 | the rows are those of one connection after the other, in the order in which the connections first appear; each contributes one row for each migration among its events sorted by time and name, in order |
| MigrationLog.RowsAreMigrations | AE/fig14/parse_miglat.py:64-83 | one row for each run of eight consecutive events in step order, none else, in order |
| MigrationLog.MigrationsDisjoint | AE/fig14/parse_miglat.py:79-82 | no event belongs to two migrations |
| MigrationLog.RowColumns | AE/fig14/parse_miglat.py:72-80 | the last nine columns are the seven intervals, their sum, and the sum of the last three |
| MigrationLog.RowWidth | AE/fig14/parse_miglat.py:67-71 | a row has nine columns exactly if no other migration was under way when it began, else a timestamp stands in front |
| MigrationLog.ResyncShiftsRow | AE/fig14/parse_miglat.py:67-71 | one abandoned INIT_MIG before a complete migration shifts its row |
| MigrationLog.LineOrderIrrelevant | AE/fig14/parse_miglat.py:52-83 | the same lines in any order give the same rows, and each connection's in the same order |
| MigrationLog.TiesLoseMigration | AE/fig14/parse_miglat.py:63-83 | a migration logged in step order, anywhere among a connection's events of growing times, is still one after sorting exactly if no receive, and no acceptance, has the time of the step before it, and nothing but an acceptance or another INIT_MIG was logged before at the time of its INIT_MIG |
| MigrationLog.StrayEventLosesMigration | AE/fig14/parse_miglat.py:63-71 | a stray RECV_STATE at the time of the INIT_MIG is enough to lose it |

## Left out

- The LibOS, DPDK, TCP and the stages, headers and checksums of TCPMIG: tokens, completions, byte streams and packets are all that is modelled of them; a connection's TCP control block is an opaque byte string.
- Contents of the HTTP server's responses, the `server-reply-analysis` feature, logging, profiling, signals, clocks and files.
- A build with overflow checks, in which the subtraction at examples/rust/http-server.rs:246 and the counter at line 481 would panic instead of wrapping.
- Fragmentation.ReassemblyIff: payloads that end in a zero byte, where the zeros a repeated packet adds can happen to complete the payload; arrivals that mix packets of different payloads.
- The proxies' vectors of outstanding operations: they are drained by the same loop as the HTTP server's, and their handlers issue one pop per popped connection; modelled are the handlers.
- Proxy behaviour when TCP coalesces a backend's responses or splits a client's request: the code assumes that this does not happen.
- ProxySystem.RequestsConserved: closing of connections and failed operations, on which the front end panics.
- HttpServer.EventLoop.OnPop: tokens and counters are written at the end of a handler, not one by one.
- Floating-point rounding of weights: they are exact reals, with which the error bound and fairness are stated.
- `bfrt` calls, the monitor's other registers and its printing: the register table is an array, the loads are inputs.
- WorkloadSpec.FormatOutput: entries of a list stand for the printed text; rates use exact products.
- `main2` of the workload generator, which calls `random_rps` without its argument.
- Removal of duplicate log lines, warm-up cut and summary statistics of parse_miglat.py.
- `trywait_any2` and `notify_migration_safety`, which examples/rust/tcpmig-server-multi.rs calls, are not part of this model: their answers are inputs. Failed operations, on which that server panics, are left out.
- The P4 programs, plotting and experiment scripts, and the remaining example applications.
