# A verified model of zmemif

zmemif is a Go implementation of memif version 2, a packet interface over shared memory.  A client
creates a region of memory that holds rings of descriptors and packet buffers, hands it to a server over
a UNIX socket, and both then move packets through the rings.  This project models the three parts of
that in Dafny and proves what holds of every run.  `dafny verify dfyconfig.toml` checks all of it.

## How it is built

**One ring.**  `RingProtocol` describes one ring with counters that never wrap and cells instead of
bytes.  `WritePacket` and `ReadPacket` are cut into steps with one shared access each (snapshot, fetch a
descriptor, copy a buffer, put a descriptor, refill a length, publish an index), and a run interleaves
the steps of one writer and one reader in any order.  S2M and M2S are two settings of the same protocol:
`pub` is the index the writer publishes (head in S2M, tail in M2S) and `lim` is where its free cells end
(tail + size, or head).  A further setting, `rest`, chooses between the code's chained copy and the copy
that goes on where the last one ended.  `RingSteps` has the same steps over the bytes of the region with
uint16 indices, int slot variables and masks.  `Refinement` proves that each byte-level step is the
protocol step of the same name.  `DataPath` draws the conclusions for whole runs, and `Capacity` says what
free slots offer, which packets they take and which bytes arrive.  `FirstCalls` works out single calls step
by step, `Progress` shows that a call left alone comes to its end, `Ledger` is the ring seen from outside, a
bounded queue with what its free slots offer, and `Exactness` says for every ring and every length whether all
runs deliver such packets intact.

**Several rings.**  `Interference` says which bytes a ring depends on at a given moment and which bytes
its own steps write.  `SharedRegion` runs any number of rings in one memory, all their peers interleaved,
and carries the results for one ring over to all of them.  `CrossTalk` applies this to the two rings of
the first queue pair, which own the same buffers, and `Collision` gives the run in which that goes wrong.

**The queue object.**  `PacketProcessing` is the code itself, with arrays, loops and branches; each call
returns, as a ghost result, the trace of steps it consists of.  `Chains` says what such a trace of a read makes
of descriptors that need not come from a well-behaved peer.  `Calls` puts two queue objects at the ends
of a ring and proves that any series of their calls goes by the ledger.

**The region.**  `Layout` has the uint16 and uint32 size arithmetic of `addRegion` and the ring placement
of `newRing`.  `MemRegion` runs `initializeQueues` in place, for any number of queue pairs.  `FreshRings`
ties the bytes it leaves to the data path, and `Misplaced` shows what packets in misplaced buffers overwrite.
`EndToEnd` goes from a finished handshake over these bytes to the queue objects and their calls.

**The control channel.**  `Control` has messages, ports and channels as values and what one received
message does; `Handlers` says exactly when it is refused and what it leaves alone.  `ControlChannel` is the channel object with its queue and its loops.  `Handshake` quantifies
over all runs of a client, a server and the socket between them that are left alone, `Interrupted` over
all runs in which either application may call Disconnect at any time, and `Disconnecting` over what follows
a finished handshake.  `Conversation` runs two channel objects through any such series.  `Ports` follows
the ports of a socket and the channels that hold them.

Memory accesses are sequentially consistent and a ring has one writer and one reader.  System calls and
user callbacks succeed, except that mapping an empty region and unmapping a region that was never mapped
fail, as they do in Go.  Slice bounds that Go checks at run time are modelled as outcomes (`WFault`,
`RFault`, `RShort`, `Panic`), and the theorems say when they cannot happen.  The shared memory that the
handshake checks for cookies is the set of ring offsets whose headers carry one; `EndToEnd.HelloMatchesBytes`
ties it to the bytes.

## Where the code departs from its evident intent

The model follows the code; each departure has a theorem that says exactly when it bites.

- Each slot of a chain gets the front of the packet again (packet_processing.go:133).  All runs deliver all
  packets of a length intact exactly if no slot can cut them or the ring has too few slots to take one
  (`IntactIff`).  With the copy that goes on where the last one ended, packets of every length arrive intact
  in every run (`RestIsExact`).
- `setDescLength` stores 16 of 32 bits (queue.go:54): all runs keep the free slots of an M2S ring whole
  exactly when the buffer size is below 2^16 (`WholeSlotsIff`).  Packets of at most one buffer arrive intact
  in all runs exactly on S2M rings, with buffers of at most 2^16 bytes, and on rings of one slot
  (`OneBufferIff`); with buffers of 65537 bytes two bytes can arrive wrong (`TwoBytesSpoilt`).
- `packetBufferOffset` is computed in uint16 (mem_region.go:110): the copy of the client's first packet can change a
  ring exactly when the rings end at 2^16 or later (`FirstPacketHitsRingIff`).
- `initializeQueues` counts a ring's slots from `qid*size` (mem_region.go:73-75, 96-98): the S2M tables come
  out as intended exactly for one queue pair (`S2MIntendedIffOnePair`), the M2S tables never
  (`M2SNeverIntended`).  With two or more pairs a packet on the client's second tx queue overwrites the
  header of the first ring (`SecondQueueOverwritesFirstRing`).
- So the rings of both directions of the first pair own the same buffers.  For every usable configuration
  there is a run in which the server reads back the packet it has sent in place of the client's (`ReadsItsOwn`).  Both
  directions are safe and in order in every run in which no copy goes into a slot whose twin in the other
  ring is unread or being written (`FirstPairIsSafe`), and with a buffer for every slot in every run
  (`IntendedLayoutIsSafe`).
- The region size is computed in uint32 (mem_region.go:116), so a region can be too small for its rings, or
  empty: the client then crashes on Hello, or gives up (`HelloFails`, `TooSmall`).
- The S2M queue limit is overwritten by the M2S limit (control_msg.go:429-430): for any Hello a client
  announces S2M rings beyond the peer's limit exactly if both the configured number of pairs and the M2S limit
  exceed it (`HelloIgnoresS2MLimit`).
- Init never carries a secret (control_msg.go:439-443), so only ports without one can be reached
  (`ConnectsIffCompatible`, `CompatibleMeans`).
- `disconnect` stops at an unmapped region (port.go:226): a server that closes, for whatever reason, leaves
  its port held exactly if a region has been announced and the two are not connected (`ClosingStep`), that is after
  AddRegion and before Connect (`ClosedServer`), and then for good (`StuckForGood`).
- A channel may send Init twice (control_msg.go:461-495): ports and channels stay consistent exactly if the
  second one is refused (`SecondInitIff`).

## Model

| member | source | states |
|---|---|---|
| `DataPath.Fifo` | packet_processing.go:7-151 | over every interleaving of the two peers of a fresh ring that nothing else writes to, for every buffer size: the packets read are the packets accepted, in order, none lost, repeated or invented, each as the free slots at its start determine that it is cut up, with the length WritePacket returned for it; with whole slots that is the chaining as written, and up to the least a slot can offer it is the packet |
| `Exactness.IntactIff` | packet_processing.go:133 | on every fresh ring and for every length, all runs deliver all packets of that length intact exactly if the length is at most the least a slot can offer or needs more slots than the ring has |
| `Exactness.OneBufferIff` | queue.go:53-55 | packets of at most one buffer arrive intact in all runs exactly on S2M rings, with buffers of at most 2^16 bytes, or on rings of one slot |
| `Exactness.TwoBytesSpoilt` | queue.go:53-55 | on an M2S ring with buffers of 65537 bytes and two slots or more some run delivers a two-byte packet wrong |
| `Capacity.LeastIsExact` | packet_processing.go:109-136 | an accepted packet no longer than the least a slot can offer is sent as it is, for every buffer size |
| `DataPath.RestIsExact` | packet_processing.go:112-136 | with a copy that goes on where the last one ended, every delivered packet of any length over any buffer size equals the accepted one, over all interleavings |
| `DataPath.ByteExact` | packet_processing.go:7-151 | in the same runs a packet of at most the least length a slot can offer, read into a buffer that holds it, comes out byte for byte with its length; that length is the buffer size on S2M rings and with buffers of at most 2^16 bytes |
| `DataPath.NoFault` | packet_processing.go:35-50 | in no run does either peer access memory outside the region or does a read return the incomplete-chain error |
| `DataPath.NoShortRead` | packet_processing.go:50 | read buffers that hold a ring's worth of bytes never cause the slice panic on the caller's buffer |
| `DataPath.PeersApart` | packet_processing.go:17-146 | in no interleaving do the next accesses of writer and reader fall on the same slot of the table |
| `DataPath.AcceptedIffRoom` | packet_processing.go:84-120 | over every run and for every buffer size a write is accepted exactly when a slot was free at its start and the free slots, as the descriptors in memory had it then, together offered the packet's length; with whole slots, exactly when nFree was at least max(1, ceil(L/B)) |
| `Progress.WriteSucceeds` | packet_processing.go:78-151 | a write for which the free slots suffice, left alone, is accepted |
| `Progress.ReadSucceeds` | packet_processing.go:7-74 | a read with a ring's worth of space, left alone, delivers the next unread packet |
| `DataPath.WriteReturns` | packet_processing.go:92-151 | a WritePacket call, whatever the reader does meanwhile: when it returns, the packet is accepted with the number returned, or rejected and 0 is returned |
| `Progress.ReadReturns` | packet_processing.go:25-74 | a ReadPacket call in any run, whatever the writer does meanwhile: when it returns it has delivered exactly one packet, if one was unread at its start, and returns its length; otherwise it has delivered nothing, returns 0 and leaves the caller's buffer as it was |
| `Chains.BrokenChainIff` | packet_processing.go:41-55 | for any descriptors that can be copied, a ReadPacket call on its own returns the incomplete-chain error exactly if all pending slots say that the chain goes on, with memory and its own index unchanged |
| `Chains.WriteFaultsIff` | packet_processing.go:103-136 | the copy into a slot panics exactly for a descriptor of another region or beyond the region, and then stores nothing |
| `Chains.ReadFaultsIff` | packet_processing.go:30-50 | the copy out of a slot panics exactly for such a descriptor, or for an offset beyond the caller's buffer |
| `DataPath.RefusedWriteUnseen` | packet_processing.go:92-120 | over any stretch of a run in which no packet is accepted, such as a write from its start to its refusal beside a working reader, for every buffer size: the writer's index does not move, every slot unread at the end has the bytes it had at the start, and every slot free at the start offers what it offered, also if it was rewritten |
| `DataPath.RoomsByHistory` | packet_processing.go:57-71 | in every run and for every buffer size, what the free slots offer is determined by the packets accepted so far: on an M2S ring the low half of the buffer size over the high half of the length the slot held one round before |
| `DataPath.PublishedBytesStay` | packet_processing.go:41-73 | flags, length and buffer bytes of the k-th unread slot stay as they are, in any continuation of any run, until more than k slots have been consumed |
| `DataPath.ReturnsBytesSent` | packet_processing.go:110-150 | what WritePacket returned for an accepted packet is the length of what its slots made of it, at least the packet's length, and is what ReadPacket returns for it; it is the length of the chaining as written with whole slots, and the packet's length up to the least a slot can offer |
| `DataPath.BuffersReturned` | packet_processing.go:57-71 | in M2S, from the first client read that returns on, head = lastTail + size mod 2^16 whenever no read is under way |
| `DataPath.HandedBackOnce` | packet_processing.go:66-70 | by then the number of refilled descriptors is the ring size plus the slots consumed, for every buffer size: each consumed slot was handed back once; with whole slots these are the slots the delivered packets need |
| `DataPath.RefillsInTurn` | packet_processing.go:66-69 | the k-th refill of a run goes to slot k mod size, and never to a slot that is unread or that the server may use |
| `DataPath.FreeSlotsAreWhole` | packet_processing.go:66-70 | in M2S with a buffer size below 2^16, every slot the server sees as free offers the whole buffer whenever no write is under way, also after writes that ran out of slots |
| `FirstCalls.WholeSlotsIff` | queue.go:53-55 | that holds of all runs exactly when the buffer size is below 2^16; for larger ones an empty packet sent and read leaves a short slot |
| `DataPath.RunRefines` | packet_processing.go:7-151 | a byte-level run with wrapped counters follows a run of the protocol with unbounded ones |
| `DataPath.WriteTraceIsRun` | packet_processing.go:78-151 | a WritePacket call on its own is a schedule of writer steps |
| `DataPath.ServerWriteTrace` | packet_processing.go:103-107 | a server's writes are the same steps whatever its own PacketBufferSize |
| `DataPath.ServerReadTrace` | packet_processing.go:57-62 | and so are a server's reads, which refill nothing |
| `DataPath.ReadTraceIsRun` | packet_processing.go:7-74 | the same for ReadPacket |
| `Calls.Exchange` | packet_processing.go:7-151 | any series of WritePacket and ReadPacket calls of two queue objects sharing the region of a fresh ring, whatever the server's PacketBufferSize and for every buffer size: the number each call itself returns, what each read leaves in its buffer, which packets go in, what is read for each and where the series stops with a panic are what the ledger says of the calls before; a panic needs a read buffer of less than a ring's worth |
| `Calls.Send` | packet_processing.go:78-151 | one WritePacket call on such a pair is a run that accepts the packet exactly if the free slots suffice for it, and else refuses it |
| `Calls.Receive` | packet_processing.go:7-74 | one ReadPacket call is a run that delivers exactly one packet if one is left; none otherwise, with 0 returned and the buffer as it was; or panics, exactly if the last piece of that packet begins beyond the buffer |
| `Ledger.BookAlways` | packet_processing.go:7-151 | after any series of calls the queue of the ledger is the end of what was sent, each packet in it is cut up as an accepted one is, free and queued slots make up the ring, and each free slot offers what its last use has left |
| `Ledger.SlotsConserved` | packet_processing.go:57-71 | no slot is ever lost: once slots are on offer, free ones and those of unread packets add up to the ring |
| `Ledger.SentIffSlotsLeft` | packet_processing.go:84-120 | with whole slots a packet goes in exactly if slots are on offer and max(1, ceil(L/B)) of them are left besides those of the unread packets |
| `Ledger.SentIs` | packet_processing.go:109-136 | what is read for a packet that went in is at least as long, with whole slots the chaining as written, and up to the least a slot can offer the packet itself |
| `Ledger.PanicIsShort` | packet_processing.go:50 | a read panics only with a buffer of less than a ring's worth of bytes |
| `SharedRegion.PoliteRunsAreSafe` | packet_processing.go:7-151 | any number of fresh rings in one region, shared buffers or not, all peers interleaved: as long as no copy goes into a buffer that another ring has unread or being written, every ring is fault-free, keeps its peers apart and delivers in order |
| `SharedRegion.DistinctBuffersAreSafe` | packet_processing.go:7-151 | with buffers of their own, all rings at once are so in every run |
| `SharedRegion.StepKeepsSane` | packet_processing.go:7-151 | a step of any peer on any ring keeps every other ring in a state of its own protocol |
| `Interference.HarmlessKeeps` | packet_processing.go:41-136 | a change of memory outside a ring's header, table and live buffers leaves the ring with its histories and invariants |
| `CrossTalk.FirstPairIsSafe` | mem_region.go:73-98 | from initializeQueues on, all four peers of the first queue pair interleaved: both directions are safe and in order as long as no copy goes into slot i while slot i of the other ring is unread or being written |
| `CrossTalk.IntendedLayoutIsSafe` | mem_region.go:110-116 | from a region set up with the one buffer a slot that addRegion makes room for, all rings of all queue pairs are safe and in order in every run |
| `CrossTalk.ApartIsFresh` | mem_region.go:73-98 | such a region has a fresh ring everywhere |
| `MemRegion.Port.InitializeApart` | mem_region.go:45-103 | the loops of initializeQueues with slots counted within each ring and buffers counted through all rings set the region up in that way |
| `Collision.ReadsItsOwn` | mem_region.go:73-98 | for every usable configuration, the default included, and all packets p and q of one length up to the buffer size there is a run from initializeQueues on in which both WritePacket calls return with their packet sent, the client's of p and then the server's of q, and the server then reads q in place of p |
| `Collision.SomeRunIsOutOfOrder` | mem_region.go:73-98 | so with both directions in use some run delivers other bytes than were accepted |
| `RingProtocol.StepKeepsInv` | packet_processing.go:17-146 | every step of either peer keeps the ring invariant: the unread region holds exactly the chains of the undelivered packets, the write under way and the read under way stay inside their own cells |
| `RingProtocol.NoSharedCell` | packet_processing.go:17-146 | the next accesses of the two peers fall on different cells |
| `RingProtocol.PublishedIsStable` | packet_processing.go:41-73 | over a whole run a published cell is unchanged for as long as the reader has not consumed it |
| `RingProtocol.IndicesGrow` | packet_processing.go:57-71 | the published, offered and consumed counters never go back |
| `RingProtocol.PublishesOnlyAccepted` | packet_processing.go:139-146 | over a whole run the published counter moves only when a packet is accepted |
| `Capacity.AcceptedShape` | packet_processing.go:109-136 | with whole slots an accepted packet took NumSlots slots, all free at the start, and its pieces concatenate to what Wire says, for either form of the copy |
| `Capacity.RejectedShape` | packet_processing.go:112-117 | with whole slots a packet turned away needed more slots than were free |
| `Capacity.StepKeepsOffered` | packet_processing.go:66-69 | every step keeps the length of each slot what the packets accepted determine, what a write has ahead as it was at its start, and every piece as long as its slot and its source allow |
| `Capacity.CutIs` | packet_processing.go:109-136 | an accepted packet was cut up as the loop cuts it over what the free slots offered at its start |
| `Capacity.CutOk` | packet_processing.go:109-136 | and cutting a packet up so makes it one that is accepted exactly if a slot is free and all of them together offer its length |
| `Capacity.LongPacketRepeats` | packet_processing.go:133-135 | a packet longer than a buffer reads back as its first B bytes repeated ceil(L/B) times |
| `Capacity.IntactIffOneBuffer` | packet_processing.go:133 | the chaining as written gives back all packets of a length exactly when the length fits one buffer |
| `Refinement.StepRefines` | packet_processing.go:8-146 | each byte-level step from related states gives the related protocol step: memory, indices, program points and histories |
| `Refinement.Wrapped` | packet_processing.go:25 | the uint16 value of s - x + y on wrapped x and y is the true value while that is below 2^16 |
| `Refinement.SlotIsAt` | packet_processing.go:31 | slot & mask on the int slot variable is the unbounded position modulo the ring size, for rings of up to 2^15 slots |
| `Refinement.FreeSlots` | packet_processing.go:84-90 | the uint16 free-slot count of both roles is the distance of the unbounded counters |
| `RingMemory.AndMask` | packet_processing.go:8 | x & (2^k - 1) is x mod 2^k for every int x >= 0 |
| `RingMemory.FastAccessorsAgree` | queue.go:30-51 | the direct index accessors agree with updateRing, get or set, and putRing |
| `RingMemory.WriteIndexSpec` | queue.go:42-51 | an index store changes that index to the low 16 bits and neither the other index nor any cell |
| `RingMemory.PutDescCell` | descriptor.go:34-36 | putting a descriptor changes that cell's flags and length and no other cell, buffer or index |
| `RingMemory.SetLengthCell` | queue.go:53-55 | setDescLength changes the low half of that cell's length and nothing else of the ring |
| `RingMemory.Places` | queue.go:30-55 | head at bytes 6 and 7 and tail at 64 and 65 of the header, descriptor i at 128 + 16 i, its length at 4 to 7, all little-endian |
| `PacketProcessing.Queue.WritePacket` | packet_processing.go:78-151 | the in-place code is the writer's steps from its snapshot to its return, panic included |
| `PacketProcessing.Queue.ReadPacket` | packet_processing.go:7-74 | the in-place code is the reader's steps, with the caller's buffer in every outcome, the error return, the panics and lastHead or lastTail |
| `PacketProcessing.Queue.Refill` | packet_processing.go:57-71 | hands back the consumed slots as the reader's refill steps do and sets the private index |
| `Layout.OffsetIsMod` | mem_region.go:110 | packetBufferOffset is 2N(128 + 16*2^k) modulo 2^16 |
| `Layout.OffsetExactIff` | mem_region.go:110 | it agrees with the ring placement exactly when that product is below 2^16 |
| `Layout.BuffersHitRingsIff` | mem_region.go:109-119 | the first packet buffer starts inside a ring exactly when the rings end at 2^16 or later |
| `Layout.WrapExample` | mem_region.go:110 | a queue pair with rings of 2^11 slots is such a case: the buffers start at 256 |
| `Misplaced.FirstPacketHitsRingIff` | mem_region.go:73-75 | some packet of a single byte, sent first by the client, changes a byte of a ring with its copy exactly when the rings end at 2^16 or later |
| `Misplaced.FirstCopyGoesTo` | mem_region.go:73-75 | the copy of the client's first packet goes to packetBufferOffset and changes nothing else |
| `Layout.RegionSizeExact` | mem_region.go:116 | without wrap-around the region size is the rings plus 2N*2^k buffers |
| `Layout.RegionSizeMod` | mem_region.go:116 | for any configuration the region size is packetBufferOffset and a buffer for every slot of 2N mod 2^16 rings, modulo 2^32 |
| `Layout.LayoutDisjoint` | mem_region.go:109-119 | without wrap-around all rings and all packet buffers are disjoint and inside the region |
| `Layout.NewRingPlace` | ring.go:47-64 | newRing puts S2M rings first and M2S rings after them, without gaps |
| `MemRegion.Port.AddRegion` | mem_region.go:106-147 | the new region has the computed size and offset and is all zero |
| `MemRegion.Port.InitializeQueues` | mem_region.go:45-103 | for any number of queue pairs and any region: the loops panic exactly if the last descriptor of the last M2S ring starts beyond the region, and otherwise leave what their stores leave, one after the other and cut off at the end of the region, with the queue lists of newRing |
| `MemRegion.CrashesIff` | descriptor.go:34-36 | no store of initializeQueues starts beyond a region exactly if that one does not |
| `MemRegion.LeavesInitialized` | mem_region.go:45-103 | in a region with room for every descriptor every ring header then has cookie, flags 1 and zero indices, the first ring of each direction has its whole table, and the second S2M table is untouched |
| `MemRegion.EntrySurvives` | mem_region.go:72-75 | the j-th descriptor for queue qid goes to slot qid * size + j counted from its own ring's table and offers buffer qid * size + j; in the finished region it is there unless a later ring's turn stores on it |
| `MemRegion.ThirdTable` | mem_region.go:72-75 | with three or more pairs, slot k of the third S2M table offers buffer size + 8 + k, for k below size - 8 |
| `MemRegion.LastEntryFront` | descriptor.go:34-36 | of the last descriptor of the last M2S ring a region that ends within it holds the front |
| `MemRegion.FreshBytes` | mem_region.go:62-66 | the bytes of a fresh header and of one descriptor |
| `FreshRings.InitializedIsFresh` | mem_region.go:45-103 | what initializeQueues leaves is a fresh first ring in either direction: each descriptor owns its buffer, disjoint from the others and from the ring |
| `FreshRings.DefaultsAreSound` | main.go:10-15 | the default configuration wraps nowhere, so the theorems on first rings apply to it |
| `FreshRings.RegionHasRoom` | mem_region.go:73-75 | the misplaced descriptors of later queues still fall inside the region for one queue pair or for buffers of 8 bytes or more |
| `FreshRings.FitsIff` | descriptor.go:34-36 | initializeQueues does not panic exactly when the region lacks at most one descriptor of the room all of them need |
| `FreshRings.S2MIntendedIffOnePair` | mem_region.go:73-75 | the S2M tables come out as intended exactly for one queue pair |
| `FreshRings.M2SNeverIntended` | mem_region.go:96-98 | the first M2S ring never gets the buffers that addRegion reserves for it: its slot 0 has buffer 0 |
| `FreshRings.SecondTableUntouched` | mem_region.go:72-76 | with two or more pairs the second S2M ring's descriptors are all zero |
| `Misplaced.SecondQueueOverwritesFirstRing` | mem_region.go:72-76 | so the client's first packet of eight bytes or more on its second tx queue replaces cookie, flags and head of the first ring |
| `FreshRings.DirectionsShareBuffers` | mem_region.go:96-98 | in the bytes initializeQueues leaves, the region and offset fields of slot j are the same in the first S2M and the first M2S ring |
| `Handshake.LockStep` | control_msg.go:123-249 | in every run at most one message is in flight, no handler dereferences a missing port, the client panics only if its region is too small for its rings, and it is connected only once the server is |
| `Handshake.ConnectsIffCompatible` | control_msg.go:438-495 | a run with nothing left to handle has both ends connected exactly if they are compatible and the client's region is not empty and holds its rings, with 2N+3 client messages sent, else neither; and it has crashed the client exactly if that region is too small |
| `Handshake.CompatibleConnects` | control_msg.go:229-249 | between such ends every run, however far it has got, can be carried on to one with both ends connected |
| `Handshake.IncompatibleNeverConnects` | control_msg.go:597-599 | if one of these conditions fails no run ever connects either end |
| `Handshake.CompatibleMeans` | control_msg.go:475-495 | compatible: the first free server port of that id has a secret of 24 zero bytes and at least as many queue pairs as negotiated |
| `Handshake.QueuesAgree` | control_msg.go:549-615 | once the client is connected the server's rx and tx queues are the client's tx and rx queues, ring by ring, N of each |
| `Handshake.ConnectedRings` | control_msg.go:427-431 | once the client is connected both ends have as many rings, as large, as configured but for the limits of 255 and 14, at multiples of 128 + 16*2^k, S2M rings first |
| `EndToEnd.HelloMatchesBytes` | mem_region.go:45-103 | on any Hello that a client accepts, its lists are those that initializeQueues builds, and every ring offset that from then on counts as marked carries a proper header in the bytes |
| `EndToEnd.ServerRingsMarked` | port.go:179-199 | every ring that a connected server has carries the cookie in the bytes that initializeQueues leaves |
| `EndToEnd.Establish` | control_msg.go:549-693 | after any handshake that has connected the client, with a usable configuration: the queue objects of the first pair, on the initialised region and with the rings that each end has, are the two ends of a fresh ring, in either direction |
| `EndToEnd.Transfer` | packet_processing.go:7-151 | so any series of their calls in one direction goes by the ledger |
| `Handshake.HandshakeEnds` | control_msg.go:733-839 | at most 4N+9 events of a run have any effect |
| `Handshake.PhaseStep` | control_msg.go:206-252 | in each phase of the handshake the only event that can have an effect is the one named for it, and it lowers the rank |
| `Handshake.ServerAccepts` | control_msg.go:784-823 | the server takes message j of the script, appends what it announces and answers |
| `Handshake.ServerRefuses` | control_msg.go:841-848 | an unacceptable message is answered by Disconnect and closes the server's channel |
| `Handshake.LateRefusalKeepsPort` | port.go:224-236 | a refusal after AddRegion leaves the server's port held with its region |
| `Handshake.NegotiatedFits` | control_msg.go:427-431 | with the server's Hello limits every ring offset fits 32 bits and every ring size 16, so AddRing's narrowing is lossless |
| `Handshake.NegotiatedIs` | control_msg.go:427-431 | for any configuration and any Hello the number of pairs is the lesser of the configured one and the M2S limit, the ring size the lesser of the configured one and the peer's, and the buffer size the configured one |
| `Handshake.S2MLimitExceededIff` | control_msg.go:429-430 | for any Hello the negotiated number of pairs exceeds the S2M limit exactly if both the configured number and the M2S limit do |
| `Handshake.HelloIgnoresS2MLimit` | control_msg.go:757-783 | then, and only then, the script a client queues announces an S2M ring beyond that limit |
| `Handshake.S2MLimitExceeded` | control_msg.go:429-430 | two pairs configured, four M2S rings and one S2M ring allowed: two pairs are negotiated |
| `Handshake.HelloDelivered` | control_msg.go:742-783 | Hello makes a client whose region holds its rings lay it out, queue the whole script and send Init |
| `Handshake.HelloFails` | mem_region.go:137-140 | an empty region makes it close with Disconnect, and a region too small for the rings makes it panic |
| `Handshake.TooSmall` | mem_region.go:110-116 | one pair of rings of 2^12 slots with buffers of 2^20 bytes is such a configuration: 256 bytes of region |
| `Handshake.TooSmallCrashes` | descriptor.go:34-36 | every handshake of a client so configured ends with the client's panic and the server not connected |
| `Disconnecting.DisconnectRun` | port.go:122-128 | after any interleaving of Disconnect calls and deliveries each end is up or down, and an end that called is down: no channel, no queues, no regions |
| `Disconnecting.BothDownInTheEnd` | control_msg.go:716-731 | one call by either end has taken both down once everything is delivered |
| `Interrupted.AnyRunIsOrderly` | control_msg.go:269-298 | with Disconnect calls by either application at any time, in every run: the server never crashes, the client only on too small a region, a closed client's port is free again, the server is connected only after the whole script, and a connected client faces a connected server or has notice of its end |
| `Interrupted.ClosedServer` | port.go:224-236 | a server that has closed in any such run has its port held for an unmapped region exactly if it had taken AddRegion and not Connect, counted over the run; otherwise it had no port or the port is free |
| `Interrupted.ClosingStep` | port.go:224-236 | the step that closes the server, be it a refusal, a Disconnect or a call, leaves its port stuck exactly if just before it a region had been announced and the two were not connected |
| `Interrupted.StuckForGood` | port.go:205-242 | a closed server's ports never change again in any continuation, and no later Init finds a stuck one |
| `Interrupted.OtherPortsUntouched` | control_msg.go:292 | in no run does anything that this client does change another port of the server's socket, or any port's configuration |
| `Interrupted.EndsTogether` | port.go:122-128 | when nothing is left to handle both ends are connected or both are closed, and both are closed after any Disconnect call of the client, or of the server on a held port |
| `Interrupted.LooseStep` | control_msg.go:206-298 | every event and every call keeps the relation between script, both channels and both directions of the socket that these rest on |
| `Disconnecting.LinkedIsParting` | control_msg.go:674-693 | a finished handshake is a state from which the disconnect theorems start |
| `ControlChannel.Channel.SendMsg` | control_msg.go:123-155 | takes the oldest message off the queue and sends it |
| `ControlChannel.Channel.CloseChannel` | control_msg.go:269-298 | queue cleared and Disconnect sent if asked, channel unregistered, port disconnected, failures as they come |
| `ControlChannel.Channel.DisconnectHere` | port.go:205-242 | queues dropped first, then regions, stopping at one that is not mapped |
| `ControlChannel.Channel.FindFree` | control_msg.go:475-494 | the loop finds the first free server port of the id |
| `ControlChannel.Channel.TakeInit` | control_msg.go:461-495 | version, id and secret checks, then port and channel are bound and Ack queued |
| `ControlChannel.Channel.TakeAddRegion` | control_msg.go:521-547 | the index check, then an unmapped region is appended |
| `ControlChannel.Channel.TakeAddRing` | control_msg.go:583-615 | the index check, then the ring is appended by direction, whatever its index |
| `ControlChannel.Channel.TakeConnect` | control_msg.go:635-693 | maps every region, checks every cookie, then marks the channel connected |
| `ControlChannel.Channel.MapRegions` | port.go:168-177 | after the loop every region is mapped and otherwise as before |
| `ControlChannel.Channel.CheckCookies` | port.go:179-199 | the loop succeeds exactly when every ring carries the cookie |
| `ControlChannel.Channel.EnqueueScript` | control_msg.go:757-783 | the loops queue Init, the regions, the S2M rings, the M2S rings and Connect, in that order |
| `ControlChannel.Channel.TakeHello` | control_msg.go:414-436 | version check, negotiation, initialisation with its error and its panic, and the script |
| `ControlChannel.Channel.Dispatch` | control_msg.go:733-839 | the handler for each message type, with its error or the nil-port crash |
| `ControlChannel.Channel.HandleEvent` | control_msg.go:206-252 | one received message changes the channel and sends what the functional model says |
| `Handlers.CloseIs` | control_msg.go:269-298 | what close sends, leaves queued and returns, and what becomes of its port: queues dropped, and regions and channel as well exactly if all regions are mapped |
| `Handlers.CloseKeepsOthers` | control_msg.go:292 | closing a channel changes no port but its own, and no configuration |
| `Handlers.DeliverKeepsOthers` | control_msg.go:206-298 | no message, whatever it is, changes a port other than the one its channel was or is bound to |
| `Handlers.HelloRefusedIff` | control_msg.go:414-436 | Hello is refused exactly for other versions than 0x200 and for a region of no bytes, and is a panic exactly for a region too small |
| `Handlers.HelloAdds` | control_msg.go:427-436 | a Hello that is taken keeps the port's regions, rings and messages and adds one region, its rings and the script |
| `Handlers.InitTakenIff` | control_msg.go:461-495 | Init is taken exactly on version 0x200 and the secret of the first free server port of its id, which the channel then holds |
| `Handlers.AddRegionTakenIff` | control_msg.go:521-547 | AddRegion is taken exactly up to index 255 and adds an unmapped region |
| `Handlers.AddRingTakenIff` | control_msg.go:583-615 | AddRing is taken exactly below the port's own number of queue pairs; S2M rings go to the receive side |
| `Handlers.ConnectTakenIff` | port.go:168-199 | Connect is taken exactly if every ring of the port carries the cookie, and maps the regions in any case |
| `Handlers.NoCookieNoConnection` | port.go:179-199 | a server with a ring without a cookie answers Connect by Disconnect and closes, and its port is free again |
| `Handlers.NoPortPanics` | control_msg.go:733-839 | on a channel without a port exactly Ack, Init and Disconnect do not dereference it |
| `Handlers.RefusedCloses` | control_msg.go:841-848 | a refused message is answered by Disconnect and closes the channel with nothing left to send |
| `Handlers.RegionMsgsAre` | control_msg.go:497-519 | one AddRegion message a region, in turn, with its size and the low 16 bits of its index |
| `Handlers.RingMsgExactIff` | control_msg.go:557-581 | an AddRing message says what the ring is exactly if index, offset and size fit 16, 32 and 8 bits |
| `Conversation.Play` | control_msg.go:206-298 | any series of events and Disconnect calls on a client's and a server's channel object is a run of the system, so the objects are orderly throughout and a handshake left alone comes out as the configurations determine |
| `Conversation.Perform` | control_msg.go:206-298 | one event or call on the objects is one step of the system |
| `Ports.RolesAreUnique` | socket.go:111-122 | over every run no two ports share id and role |
| `Ports.PortsAreExclusive` | control_msg.go:475-492 | over every run with at most one Init a channel no two live channels are bound to one port, a live channel's port is held by it, and the channel a held port names points back to it |
| `Ports.StepKeeps` | control_msg.go:475-492 | creation, Init, close and deletion keep ports and channels pointing at each other, but for an Init that a channel with a port gets through |
| `Ports.SecondInitIff` | control_msg.go:461-495 | on a live channel that has a port, ports and channels stay consistent exactly if the Init is refused: no free port of that id, or another secret |
| `Ports.SecondInitStrands` | control_msg.go:461-495 | a run with two Inits on a channel that leaves the first port held by a channel that no longer points to it |
| `Ports.AddedIs` | socket.go:111-165 | and so does every creation in a run of the socket |
| `Ports.ShutKeepsOthers` | control_msg.go:292 | closing a channel touches no port but the one it points to, and no other channel |
| `Ports.ReleasedIff` | port.go:205-242 | the port of a channel that closes is free again exactly if its regions could be unmapped; another channel's Init with its id is then refused exactly for a wrong secret |
| `Ports.ReleasedIsTaken` | control_msg.go:475-492 | and the next channel that asks for it holds it |
| `Ports.Removed` | port.go:131-140 | after Delete the port is not listed any more and every other port is |
| `Ports.RemovedCloses` | port.go:131-140 | and the channel that held it is closed |
| `Ports.Socket.CreatePort` | socket.go:111-165 | refuses a second port of the same id and role, else appends one to the ports there are, with id, role, secret and the nonzero fields of the configuration as given and 1, 10 and 2048 for those that are zero |

## Left out

- System calls, file-descriptor passing and their failures, except the failure to unmap an unmapped region.
- Hardware memory ordering of the plain loads and stores in queue.go.
- Interrupts: the interrupt test is always true and an interrupt carries no data.
- Goroutines, Go channels, wait groups, user callbacks, logging and printing.
- The byte layout of control messages; AddRing's narrowing to 32, 16 and 8 bits is modelled, names are not.
- Hang-up and error events of epoll: they close the channel without a message, which is the path of a received Disconnect.
- `Socket.Delete`, which closes and deletes one after the other while it walks the lists.
- `RequestConnection` on a client port that already has a channel; `Ports` has server channels only.
- The `dpdk/` programs and the `example/` programs.
- Ports.PortsAreExclusive: holds of runs with at most one Init a channel, because the code does not refuse a second one; `Ports.SecondInitIff` says exactly when that does no harm.
- Panics of a server that is sent ring offsets beyond its region, or rings without a region: no client of this library sends them.
