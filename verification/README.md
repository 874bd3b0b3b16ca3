# A verified model of MMFG

MMFG moves data between a hub and its nodes through shared memory. The hub cuts
memory chunks of 4 MB into 4 KB blocks, strings blocks together into *stripes*, hands a
stripe to a node by pushing a slot number into a lock-free ring, and takes it back when
the node pushes the number into the ring of responses. This project models that core in
Dafny, in the form the source has: step machines where threads and processes interleave,
classes over arrays with loops where code updates memory in place, functions where it
only computes. `dafny verify dfyconfig.toml` checks everything.

| file | what it models |
|---|---|
| Layout.dfy | constants and integer types |
| Ring.dfy | the many-producer, single-consumer ring and the eventfd that wakes its consumer, one atomic access a step; Go and Rust differ in how long they retry |
| RingWrap.dfy | what happens to that ring when its 32-bit counters wrap |
| Bitmap.dfy, Bus.dfy | the block allocator as one thread runs it: circular word scan, growth by chunks, roll-back |
| BusSteps.dfy | the same allocator under interleaving, with its locks, compare-and-swaps and the copy of a growing bitmap |
| Codec.dfy | the marker-coded block sequence, and the header block that carries it to other processes |
| Stripe.dfy | a stripe as a flat byte array over scattered windows: ReadAt, WriteAt, the byte forms, the header writer |
| Segments.dfy, Viewer.dfy | the zero-copy view: search, comparison and iteration over segments |
| Hub.dfy | stripes on the bus: allocation, growth, freeing, the header as other processes use it |
| Conn.dfy | a stripe's life: hub writes, a visit to a node, hub-granted growth, the refresh on return |
| RustWalk.dfy | the Rust node's walk over the same sequence, which passes over blocks of chunks that have not arrived |
| Rust.dfy | the Rust node's reads, writes and views by that walk, and its growing write |
| Crossing.dfy | a stripe that crosses between Go and Rust: what one side writes the other reads |
| System.dfy | any number of stripes on one bus, under any list of hub operations |
| Handoff.dfy | the protocol of Next, the dispatch loop, handlers, and expansion requests |
| Chunks.dfy | how chunks reach nodes while Dial and growth interleave |
| Slots.dfy | the probe of AllocSlot, and the accounting of slots and tokens |
| Control.dfy | the layout of the control region and the two ways to address it |

Four conventions run through the model. The whole content of a stripe is one sequence
of bytes, `Flat(blocks)`; its first 4096 bytes are the header block and the rest is
`User()`. `Represents(bus, stripe)` says that a stripe's fields, its header block, the
bitmap and the windows agree. `Look(bus)` is a snapshot of bitmap and memory, and
`Confined(before, after, supply, added, windows)` says that between two snapshots exactly
the blocks `added` were drawn from free memory and no byte outside `windows` changed;
`RoomIn(snapshot, supply)` is the number of blocks that can still be had. In the step
machines some fields are history (named in each file): steps write them and no step reads
them.

Things outside the code become parameters: `supply` is how many chunks the operating
system is willing to create, `created` and `pushed` are outcomes the environment
chooses, `plan` is what a handler will do, `reply` is an answer that has or has not
arrived, `arrived`, `arrivals` and `attached` are how many chunks a Rust node has attached
at least when it reads an answer or takes a stripe up.

Where the code and its comments part, the model follows the code: `Init` clears slots 0
to 4095 although slots are 1 to 4096 (`ControlRegion.InitReaches`), a request for zero
blocks grows the bus and fails, and the fullness test of the ring admits 509 entries
although only 256 are safe across the wrap of its counters
(`RingWrap.ReservationIsSafeIff`). Where Go waits for a chunk that a message names, the
Rust node walks on without it, so a transfer goes where it should if and only if every
block it touches is of a chunk attached by then (`RustWalk.ResolvedIff`); what is proved of
the Rust node is proved for both cases.

## Model

| member | source | states |
|---|---|---|
| Ring.SameEntry | go/shm/control.go:91-91 | two tickets fewer than 510 apart use the same entry if and only if they lie on different sides of a 2^32 wrap and are exactly 256 apart |
| Ring.WindowDistinct | go/shm/control.go:76-91 | the tickets in flight have entries of their own if and only if they straddle no wrap or are at most 256 |
| Ring.PackReady | go/shm/control.go:93-95 | a packed word is ready and unpacks to the slot and the command without its top bit |
| Ring.CasHasRoom | go/shm/control.go:73-90 | a reservation that wins its compare-and-swap leaves at most 509 entries in flight, however stale the head it tested, unless the producer slept through 2^32 reservations |
| Ring.StepKeeps | go/shm/control.go:69-134 | every atomic step of any producer or of the consumer keeps the ring invariant, under the same two conditions |
| Ring.StepRefinesFifo | go/shm/control.go:69-134 | each step is a queue step: a won CAS enqueues its message, the head advance dequeues the oldest, all others change nothing; a pop that has loaded the tail reports empty exactly when the queue is empty |
| Ring.GivesUpIff | rust/src/control.rs:29-58 | a pop that found an entry still answers none exactly when its patience is at an end and the producer of the oldest entry has reserved it but not stored it |
| Ring.RunRefinesFifo | go/shm/control.go:69-134 | in every run whose windows keep to the wrap condition and in which no producer sleeps through 2^32 reservations, what was popped is a prefix of what was pushed in CAS order, and every live entry still holds its message |
| Ring.RunBelowWrapRefinesFifo | go/shm/control.go:69-134 | the same in every run with fewer than 2^32 pushes, with no other hypothesis |
| Ring.RunOnlyAppends | rust/src/control.rs:29-102 | pushed and popped sequences only grow along a run |
| Ring.QuiescentMeansDrained | go/hub/hub.go:181-207 | no wakeup is lost, under the same two conditions: with no producer inside a push and the consumer asleep on a zero counter, everything pushed was popped |
| Ring.SleepingConsumerIsOwed | go/node/node.go:507-520 | under the same two conditions, while the consumer sleeps on a zero counter each queued entry belongs to a producer that has still to notify |
| Ring.BelowWrapMeansDrained | go/hub/hub.go:181-207 | no wakeup is lost in any run with fewer than 2^32 pushes, with no other hypothesis |
| Ring.BelowWrapIsOwed | go/node/node.go:507-520 | each queued entry is owed a notification in any run with fewer than 2^32 pushes |
| Ring.PopReturns | go/shm/control.go:104-128 | a pop that finds a packed message ready returns it |
| RingWrap.ReservationIsSafeIff | go/shm/control.go:76-91 | a won reservation gets an entry that no live ticket uses if and only if its window straddles no wrap or holds at most 256 tickets |
| RingWrap.UnsafePushOverwrites | go/shm/control.go:76-95 | every other won reservation, at any wrap and in any window, overwrites the live entry 256 tickets before it if that is stored with another word |
| RingWrap.QueueLawFailsAtWrap | go/shm/control.go:69-134 | a run of 2^32 + 1 pushes from the empty ring reaches a state in which what was popped is no prefix of what was pushed |
| Codec.AddressRoundTrip | go/shm/protocol.go:41-49 | block address and its parse undo each other |
| Codec.DecodeEncode | go/shm/bus.go:229-237 | decoding undoes encoding for every list of valid blocks, and b blocks take at most 2b entries |
| Codec.GrowEncoding | go/shm/bus.go:250-266 | growing an encoded list by a batch gives the encoding of the whole list |
| Codec.DecodeSuffix | go/hub/conn.go:223-240 | the entries past an old sequence decode to exactly the blocks that were appended |
| Header.PutGet32 | go/shm/protocol.go:11-26 | a 32-bit number survives its little-endian bytes |
| Header.HeldIsDecoded | go/shm/protocol.go:24-38 | a reader gets the counters and the entries that fit, and zeros for the rest |
| Header.RoundTripIff | go/shm/protocol.go:9-38 | the header round-trips if and only if every entry past the 2044th is zero |
| Header.DecodedIsHeld | go/shm/protocol.go:24-38 | conversely a block with a sequence that fits holds exactly the encoding of what it decodes to |
| Bitmap.LowestFirst | go/shm/bus.go:76-83 | within a word the lowest free bit is taken first |
| Bitmap.ScanMember | go/shm/bus.go:62-87 | a full circular scan meets a block if and only if it is free |
| Bitmap.ScanDistinct | go/shm/bus.go:62-87 | and meets none twice |
| Bitmap.VisitIsModulo | go/shm/bus.go:60-63 | the scan position is the start plus the turn modulo the number of words |
| Bitmap.ScanFreshChunk | go/shm/bus.go:54-120 | after growth a scan of a full bitmap offers the new chunk's blocks in ascending order |
| Bitmap.FreeCountIsSize | go/shm/bus.go:62-87 | the count of free blocks is the size of the set of clear bits |
| Bitmap.MarkedCount | go/shm/bus.go:72-83 | marking distinct free blocks lowers that count by exactly their number |
| BusModel.OfferFacts | go/shm/bus.go:50-121 | what an allocation can be given is every free block and every block of the chunks it may add, each once |
| BusModel.Bus.constructor | go/shm/bus.go:27-47 | a bus starts with one chunk and all of its 1024 blocks free |
| BusModel.Bus.TakeBits | go/shm/bus.go:72-83 | takes the lowest free bits of a word, as many as wanted or there are |
| BusModel.Bus.ScanRound | go/shm/bus.go:55-112 | one circular scan takes the first blocks of the scan order that are wanted and marks exactly those |
| BusModel.Bus.TryAppendChunk | go/shm/bus.go:123-156 | appends one chunk and 32 clear words, keeps every bit, and fails exactly at 64 chunks or for want of memory |
| BusModel.Bus.FreeBlock | go/shm/bus.go:158-179 | clears one bit and no other; an address beyond the bitmap changes nothing |
| BusModel.Bus.RollBack | go/shm/bus.go:114-118 | frees what a failed allocation took, so that every old bit is as it was |
| BusModel.Bus.Acquire | go/shm/bus.go:54-120 | the retry loop ends with the first blocks on offer and the fewest new chunks, or with everything on offer taken |
| BusModel.Bus.AllocBlocks | go/shm/bus.go:50-121 | succeeds if and only if 1 <= count <= free blocks + 1024 per chunk that can be added; gives the first blocks on offer with the fewest new chunks, and the room left is less by exactly those; on failure restores every bit |
| BusModel.AllocatedBlocks | go/shm/bus.go:89-107 | the blocks are distinct, were free, are used now, and no used block was lost |
| BusModel.RoomKept | go/shm/bus.go:50-156 | conservation: however many chunks an allocation adds, the blocks that can still be had afterwards are fewer by exactly those it took |
| BusModel.DrewTwice | go/shm/bus.go:50-121 | two allocations in a row draw what one draws: distinct blocks, none used before, the supply shared between them |
| BusSteps.StepKeeps | go/shm/bus.go:50-179 | every step of every thread, growth included, keeps the invariant |
| BusSteps.PublishKeeps | go/shm/bus.go:142-150 | publishing the grown bitmap loses no update: it is the current bits followed by 32 clear words |
| BusSteps.BlocksAreExclusive | go/shm/bus.go:50-179 | in every state of every run a bit is set if and only if somebody holds the block, nobody shares one, and outside the write lock there are 32 words a chunk |
| BusSteps.FinishedAllocation | go/shm/bus.go:89-107 | a finishing allocation holds exactly the number of distinct blocks it was asked for, alone |
| Memory.Poke | go/shm/stripe.go:193-200 | a byte stored at its window changes exactly that byte of the flat array and no other byte of the chunk |
| Memory.CopyIn | go/shm/stripe.go:132-139 | a copy into a window changes exactly its range of the flat array and nothing outside the windows |
| StripeModel.Stripe.UpdateDataLen | go/shm/stripe.go:42-46 | writes the length bytes of the header and no other byte |
| StripeModel.Stripe.Truncate | go/shm/stripe.go:48-53 | lowers the length, never raises it, and leaves the bytes |
| StripeModel.Stripe.WriteAt | go/shm/stripe.go:111-146 | writes exactly the prefix that fits, leaves every other user byte and the sequence in the header, sets the length to the furthest byte, reports the right error |
| StripeModel.Stripe.ReadAt | go/shm/stripe.go:57-90 | returns the flat slice clipped to the data and to the blocks, end of file exactly when clipped short, and touches no more of the buffer |
| StripeModel.Stripe.ReadByteAt | go/shm/stripe.go:92-109 | the byte form of ReadAt with its error cases |
| StripeModel.Stripe.WriteByteAt | go/shm/stripe.go:148-168 | the byte form of WriteAt with its error cases |
| StripeModel.Stripe.UpdateStripeHeader | go/shm/protocol.go:9-21 | the header block then holds exactly length, count and the entries that fit, and no user byte changed |
| Segments.FindSegment | go/shm/stripe.go:176-182 | the binary search finds the segment and place of a byte of the concatenation |
| Segments.MatchAcross | go/shm/stripe.go:273-293 | matches across segments if and only if the target occurs there in the concatenation |
| Segments.Index | go/shm/stripe.go:235-271 | the leftmost occurrence in the concatenated segments, or -1 exactly when there is none, spanning any number of segments |
| Segments.Compare | go/shm/stripe.go:221-233 | true if and only if the data is the concatenation |
| ViewerModel.ViewEndIff | go/shm/stripe.go:300-309 | exactly when the 32-bit end of a view is the range asked for, clipped to the data |
| ViewerModel.TilesReadFlat | go/shm/stripe.go:311-344 | segments that tile a range read as that slice of the flat array |
| ViewerModel.Cut | go/shm/stripe.go:311-332 | the loop of View tiles the range, as far as there are blocks |
| ViewerModel.View | go/shm/stripe.go:295-347 | a view covers the user's bytes from the offset to its end as far as there are blocks; there is none exactly when that range is empty or the offset is bad; it is sound if and only if its end lies within the blocks, and then it is that slice |
| ViewerModel.Viewer.ByteAt | go/shm/stripe.go:184-191 | the byte of the slice, or an error exactly out of bounds |
| ViewerModel.Viewer.SetByteAt | go/shm/stripe.go:193-200 | changes that byte of the flat array and no other, and nothing outside the windows |
| ViewerModel.Viewer.Index | go/shm/stripe.go:235-271 | leftmost occurrence in the slice, or -1 exactly when there is none |
| ViewerModel.Viewer.Compare | go/shm/stripe.go:221-233 | true if and only if equal to the slice |
| ViewerModel.Viewer.Iterator | go/shm/stripe.go:203-219 | a walk over this view that has handed out nothing |
| ViewerModel.Walk.Next | go/shm/stripe.go:203-219 | hands out the bytes of the view's slice in order, each as it is at the time of the call, and then reports the end |
| ViewerModel.SetThroughView | go/shm/stripe.go:193-200 | a byte set through a view is what the stripe reads there; no other user byte, no header byte and no byte outside the stripe changes |
| HubModel.AppendToSequence | go/shm/bus.go:257-266 | the append loop extends a sequence by the encoding of the new blocks |
| HubModel.LastMarker | go/shm/bus.go:250-256 | the backward scan finds the chunk in force at the end of a sequence |
| HubModel.HeaderDecodes | go/shm/protocol.go:24-38 | the header of a represented stripe of at most 1022 blocks decodes to its length, count and sequence, and the sequence to its windows |
| HubModel.ListedGrows | go/shm/bus.go:244-270 | old blocks followed by freshly allocated ones are again distinct, used and encoded by the extended sequence |
| HubModel.AllocBlocksForStripe | go/shm/bus.go:244-270 | grows a stripe by exactly count blocks if and only if there is room for them, keeping bytes, length and the representation, and touches no byte outside the stripe's windows; otherwise the stripe is unchanged |
| HubModel.AllocStripe | go/shm/bus.go:217-241 | a new stripe represents an empty data part over the first blocks on offer, with the fewest new chunks, if and only if there is room; exactly its blocks are drawn and no byte outside them changes; on failure no bit changes |
| HubModel.FreeStripe | go/shm/bus.go:272-281 | frees exactly the blocks the sequence names |
| HubModel.FreeUndoesAlloc | go/shm/bus.go:217-281 | conservation: freeing what an allocation took gives back the bitmap from before |
| HubModel.FreshIsApart | go/shm/bus.go:217-241 | newly allocated windows are apart from those of every stripe listed before |
| HubModel.ReleaseKeepsOthers | go/shm/bus.go:272-281 | freeing one stripe keeps every stripe apart from it |
| HubModel.WriteKeepsOthers | go/shm/stripe.go:111-146 | writing one stripe leaves the bytes of every stripe apart from it |
| HubModel.StaysRepresented | go/shm/bus.go:217-281 | work confined to other windows leaves a stripe represented with all of its bytes |
| HubModel.ReleasedRoom | go/shm/bus.go:272-281 | freeing a stripe gives exactly its number of blocks back to the room |
| HubModel.DecodeHeader | go/shm/protocol.go:24-38 | the decoding loop computes the header's meaning, zeros past the block included |
| HubModel.RepresentsIsShared | go/node/node.go:307-318 | a represented stripe whose sequence fits can be taken up from its header alone |
| HubModel.SharedIsRepresented | go/node/node.go:307-329 | and a stripe built from such a header represents it |
| ConnModel.CollectBlocks | go/node/node.go:320-329 | a node's loop collects the windows its chunk list gives to the sequence |
| ConnModel.TakeUp | go/node/node.go:307-329 | the node's stripe represents the same bytes as the hub's, whatever chunk is in force at first |
| ConnModel.HandleExpandRequest | go/hub/hub.go:325-371 | grants exactly when the requester owns the slot and two blocks can be had; then the header lists two more blocks behind the old ones, bytes and length are kept, and no byte outside the stripe changes |
| ConnModel.AppendBlocks | go/hub/conn.go:223-240 | the refresh loop adds exactly the windows past the old sequence |
| ConnModel.RefreshStripe | go/hub/conn.go:213-246 | after a node wrote or grew the stripe, the hub's fields again represent what is in the header |
| ConnModel.FewestBlocks | go/hub/conn.go:78-93 | no smaller number of blocks would have room |
| ConnModel.WriteStripe | go/shm/stripe.go:111-146 | a write to a stripe, on either side, keeps its representation, writes the flat range that fits, and changes nothing outside its windows |
| ConnModel.TruncateStripe | go/shm/stripe.go:48-53 | a truncation keeps the representation |
| ConnModel.Conn.EnsureCapacity | go/hub/conn.go:78-93 | grows by the fewest blocks that suffice, or not at all; succeeds exactly when there is room for those; touches no other stripe's bytes |
| ConnModel.Conn.WriteAt | go/hub/conn.go:115-126 | writes all of the data or fails with the content as it was, says exactly when, and touches no byte outside the stripe |
| ConnModel.Conn.Write | go/hub/conn.go:106-113 | WriteAt at the write position, which moves by what was written; fails exactly for want of blocks |
| ConnModel.Conn.WriteByte | go/hub/conn.go:95-104 | the outcome of writing one byte, with the same failure condition and the same frame |
| ConnModel.Conn.WriteByteForEach | go/hub/conn.go:95-104 | n calls of WriteByte succeed if and only if one Write of the n bytes would, with the same content, length and number of blocks; short of blocks they have written exactly the bytes for which there was room |
| ConnModel.OutcomeDecides | go/hub/conn.go:95-113 | that outcome fixes length, block count and every byte of the data |
| ConnModel.Conn.Read | go/hub/conn.go:136-143 | returns the bytes at the read position clipped to the data, and moves by them |
| ConnModel.Conn.Close | go/hub/conn.go:248-249 | frees exactly the connection's blocks |
| ConnModel.TakeBack | go/hub/conn.go:213-246 | the hub's stripe, re-read from the header another process left, is that process's stripe |
| ConnModel.GrowFromNode | go/hub/hub.go:358-370 | a node's request grows the stripe by two blocks if and only if they can be had, keeps every byte, and ends with both sides agreeing on the blocks |
| ConnModel.RunHandler | go/node/node.go:331-338 | any finite list of writes, truncations and growths by a handler keeps the representation; content, length and room after each operation are fixed by those before it, growth happening exactly when there is room; no byte outside the stripe changes |
| ConnModel.Visit | go/hub/conn.go:181-196 | a whole visit to a node: taken up from the header, worked on by any handler, refreshed on return; the hub's stripe represents exactly what the operations made of the flat bytes, and no byte outside it changes |
| SystemModel.GrownIsApart | go/shm/bus.go:244-270 | a stripe that has grown is still apart from every other |
| SystemModel.AllStay | go/hub/conn.go:78-143 | after an operation on one stripe all others are represented with their old bytes, and all are pairwise apart |
| SystemModel.DoHubOp | go/hub/conn.go:78-249 | one operation on any of the stripes (open, write with growth, truncate, visit to a node, close) does to what callers see exactly what the operation says, leaves every other stripe as it was, and spends exactly the chunks it adds |
| SystemModel.RunHub | go/hub/conn.go:78-249 | any finite list of such operations on any stripes of one bus keeps all of them represented and pairwise apart, callers see exactly the history the operations spell out, and the supply left and the chunks added make up the supply there was |
| RustWalk.ResolveSegments | rust/src/stripe.rs:110-148 | whatever chunks are attached, the segments tile the range of as many bytes, from the same place inside a block on, over the attached blocks from the first one asked for |
| RustWalk.ResolvedIff | rust/src/stripe.rs:133-142 | they tile the asked-for range of the stripe if and only if every block it touches is of an attached chunk |
| RustWalk.ShortTransfer | rust/src/stripe.rs:133-142 | two blocks of chunk 0 grown by two of chunk 1 that has not arrived: of 8192 bytes 4096 find a place |
| RustWalk.ShiftedTransfer | rust/src/stripe.rs:133-142 | with a block of chunk 0 behind the missing one, a block of data finds its place one block too far |
| RustModel.RustStripe.RefreshSequence | rust/src/stripe.rs:82-108 | reads length, count and sequence from a header whose sequence fits, and nothing if the header's chunk has not arrived |
| RustModel.RustStripe.Resolve | rust/src/stripe.rs:110-148 | the walk over the list in the header finds the asked-for user bytes exactly when the node has attached every chunk they touch |
| RustModel.RustStripe.ReadData | rust/src/stripe.rs:150-165 | reads the flat bytes that Go reads if the node has attached their chunks, and otherwise what the attached blocks from there on hold |
| RustModel.RustStripe.WriteData | rust/src/stripe.rs:202-217 | writes the flat range that fits if the node has attached its chunks, and otherwise as much as they hold to the attached blocks from there on; never a byte of the header, nor any other byte of memory |
| RustModel.RustStripe.View | rust/src/stripe.rs:167-200 | exactly when there is a view; it is sound if and only if the node has attached the chunks of its range, and then it is the slice that Go's view is |
| RustModel.SameBytes | rust/src/stripe.rs:110-148 | a Rust stripe and a Go stripe over one header have the same windows |
| RustModel.ShmConnection.PollRead | rust/src/connection.rs:39-69 | one poll returns the bytes behind the read position, clipped to the data and to what was asked, if their chunks are attached, and otherwise what the attached blocks from there on hold; it moves by them |
| RustModel.ShmConnection.PollWrite | rust/src/connection.rs:72-118 | one poll waits, fails, asks for blocks or writes, exactly as reply, capacity and the push of the request say; it writes the whole buffer to its place if the chunks of that place are attached, and otherwise as much as they hold to the attached blocks from there on; unless it writes, nothing changes |
| RustModel.Answer | go/hub/hub.go:358-370 | the hub grants a request if and only if two blocks can be had, the room left is less by exactly those, and the node's chunks are any longer part of the hub's |
| RustModel.DriveWrite | rust/src/connection.rs:72-118 | a driven write ends well if and only if twice ceil((pos + len - capacity) / 8192) blocks can be had, after exactly that many expansions, and otherwise fails after those there was room for, with content and position as they were; when it ends well it has written all of the buffer to its place and set the length to the maximum if the chunks of that place are attached at the poll that writes, and otherwise the part that the attached blocks hold; if every answer finds all chunks attached, so does that poll |
| Crossing.RustWriteGoRead | rust/src/stripe.rs:202-217 | what a Rust transfer writes with its chunks attached, a Go ReadAt returns, up to the data length |
| Crossing.GoWriteRustRead | rust/src/stripe.rs:150-165 | what a Go write puts into a stripe, a Rust read with its chunks attached returns |
| Crossing.BothViews | rust/src/stripe.rs:167-200 | with the chunks attached, the Go view and the Rust view of a range exist together and are the same bytes |
| Crossing.WriteFromNode | rust/src/connection.rs:72-118 | the hub that takes its stripe back after a Rust node's write, growths included, finds exactly that write if the chunks of its place were attached, which they are if every answer found all chunks attached; the write ended well if and only if the blocks could be had |
| Crossing.NodeToHub | go/hub/conn.go:136-143 | end to end: a buffer written through a Rust connection, however often the stripe grows for it, is what the hub's connection reads, if every answer found all chunks attached |
| Crossing.HubToNode | rust/src/connection.rs:39-69 | end to end the other way: a Rust node that takes the stripe up with its chunks attached reads all the data, with what the hub wrote laid over what was there |
| Handoff.StepKeeps | go/hub/conn.go:149-196 | every step of connections, nodes, handlers, dispatcher and expansions keeps the protocol invariant |
| Handoff.RunKeepsInv | go/hub/hub.go:181-201 | so every state of every run has it |
| Handoff.SwapKeeps | go/hub/hub.go:187-195 | a completion that the dispatcher pops finds its waiter |
| Handoff.ExactlyOneToken | go/hub/conn.go:149-196 | a connection that waits in Next has exactly one completion under way, in a request queue, a handler, the response queue, the dispatcher or its channel; one that does not wait has none |
| Handoff.ExclusiveUse | go/node/node.go:297-347 | the connection, a handler and an expansion never can touch the same stripe together |
| Handoff.RightStripe | go/node/node.go:307-318 | a handler works on its connection's stripe, on the node named, while the connection waits |
| Handoff.ReturnsMatchRuns | go/node/node.go:297-355 | every nil return of Next matches exactly one finished handler run, returned or panicked, on the node named |
| Handoff.NothingRefused | go/hub/conn.go:168-179 | the status poll finds the slot ready or done at once, the owner check of an expansion never refuses, a popped completion finds its waiter and an empty channel, and granted blocks find the handler that waits for them |
| Chunks.StepKeeps | go/hub/hub.go:211-272 | every step of growth, Dial, callers and nodes keeps the invariant |
| Chunks.ListsAgree | go/hub/hub.go:137-148 | every node's chunk list is always a prefix of the bus's: each chunk once, in order |
| Chunks.ChunkComesFirst | go/node/node.go:420-432 | a message that names a block of a chunk is in a node's queue only after that chunk was sent to it, so the node's wait for the chunk ends |
| Slots.ProbeIsPermutation | go/shm/control.go:138-143 | for every cursor value, wrap included, the 4096 probes visit each of the slots 1 to 4096 exactly once |
| Slots.Registry.AllocSlot | go/shm/control.go:138-148 | takes the first idle slot in probe order, and fails exactly when none is idle |
| Slots.SlotAccounting | go/hub/hub.go:150-161 | in every state of every run, with probes that fail because other connections disturb them, slots in use <= tokens <= 4096, and no slot is held twice |
| Slots.TokenFindsSlot | go/hub/hub.go:150-161 | a connection with a token and no slot finds an idle one, so an undisturbed AllocSlot succeeds |
| ControlRegion.CellInsideBlock | go/shm/layout.go:77-84 | every queue and registry word is aligned, lies behind the header block and crosses no block boundary |
| ControlRegion.CellsApart | go/shm/layout.go:77-84 | different words never overlap |
| ControlRegion.InitReaches | go/shm/control.go:50-66 | Init reaches exactly the slots 1 to 4095, and its write for slot 0 falls outside the region |
| ControlRegion.PointerIsFlat | rust/src/node/mod.rs:108-112 | block-indexed and flat addressing name the same byte for every offset |
| ControlRegion.OpenControl | go/hub/hub.go:117-125 | on a fresh bus the control stripe is blocks 0 to 255 of chunk 0 in order, the windows every node cuts out |

## Left out

- Node disconnect cleanup (go/hub/hub.go:274-315): it frees blocks and slots that a live connection still lists, so the whole-run results are stated for runs without it.
- Refused expansions in Handoff: the hub then completes Next with an error while the Go node stays silent and the Rust node still responds; runs with a refusal are excluded there, while HandleExpandRequest and DriveWrite model the refusal itself.
- The Go node's own write loop (go/node/node.go:394-418, 460-505), with its size limit and its requests: OnExpandComplete drops the new block count, so its write loops never see more room; growth is stated for the Rust node and for a stripe re-read from its header.
- A second Dial under a name in use (go/hub/hub.go:266) replaces the entry of the first node, which then hears of no further chunk: Chunks has one Dial a name.
- A Rust handler that drops the future of a request for growth and finishes while the hub still grows the stripe (rust/src/connection.rs:139-155): handlers in Handoff wait for their answers.
- Liveness: the step machines prove what every run keeps, not that the scheduler lets a run go on.
- Deadlock freedom of Dial against growth: the two locks are taken in opposite orders; Chunks claims safety only.
- Ring.RunRefinesFifo: has two hypotheses on every state of the run, because the property is false without the first (RingWrap.QueueLawFailsAtWrap): windows that straddle a wrap hold at most 256 tickets, and no producer sleeps through 2^32 reservations between its loads and its compare-and-swap. RunBelowWrapRefinesFifo has neither.
- Ring.StepKeeps: has the same two hypotheses.
- Ring.CasHasRoom: has the same two hypotheses; a producer that sleeps through exactly 2^32 reservations would find its old tail again.
- Ring.QuiescentMeansDrained: has the same two hypotheses (BelowWrapMeansDrained has neither), and assumes every Notify succeeds and the 64-bit eventfd counter does not overflow.
- Ring.SleepingConsumerIsOwed: likewise; BelowWrapIsOwed has neither hypothesis.
- The ring is a step machine, not a class: each shared word is changed by several processes, so a method over exclusive state would say less.
- Bitmap words are 32 booleans, low bit first; the bit tricks of the source become Not, NonZero and TrailingZeros on them.
- HubModel.AllocStripe: says nothing about the bytes of fresh blocks, because blocks are not zeroed on allocation.
- ConnModel.HandleExpandRequest: the hub's temporary stripe has all its windows filled in, where the source fills in only the first; nothing reads the others.
- ConnModel.Visit: limited to stripes of at most 1022 blocks at the end, the size whose sequence always fits the header; the hub's own growth does not enforce a limit.
- RustModel.RustStripe.RefreshSequence: requires the sequence to fit the header block; past that the source reads on beyond the block, into bytes that are not the header's.
- RustModel.DriveWrite: limited to stripes of at most 1022 blocks at the end, as Visit is; every request is taken to find room in the hub's queue (PollWrite has the other case).
- RustModel.ShmConnection.PollWrite: requires the chunk of the header block itself to be attached; without it the block count reads as zero and the source's capacity underflows. ReadData, WriteData, View and PollRead have that case.
- Crossing.NodeToHub: assumes that every answer finds all chunks attached, because the claim is false without (RustWalk.ShortTransfer); DriveWrite says what is written otherwise.
- SystemModel.RunHub: operations follow one another; visits of several nodes at once are the subject of Handoff and BusSteps. An operation that names no stripe, cuts at 2^32 or more, or sends a stripe that may outgrow 1022 blocks is skipped.
- StripeModel.Stripe.ReadAt: excludes a caller's buffer that is itself shared memory.
- Memory ordering: every atomic access is sequentially consistent, and accesses of different sizes to one word do not occur.
- Sockets, descriptor passing, mmap, the async runtime, sleeps and spin hints, node ids and handshake parsing: foreign calls or plumbing.
- rust/src/queue.rs: not used by the node.
- Aliasing of Go slices through append: sequences and block lists are values here.
