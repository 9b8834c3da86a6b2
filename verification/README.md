# rocm-xio: a verified model of its protocols

rocm-xio lets GPU kernels drive IO directly: they write packets into SDMA rings, build NVMe
commands, and synchronise across GPUs, with a kernel module handing out and reclaiming the
queues. This project models the parts of it that are hard to get right and proves what they
promise, for every input, every interleaving and every reachable state.

- **SDMA queue** (`SdmaPackets`, `SdmaRing`, `SdmaQueue`, `SdmaQueueRuns`, `SdmaCompletion`,
  `SdmaSubmission`, `SdmaWaiting`, `SdmaRequests`, `SdmaDelivery`, `SdmaPlace`,
  `SdmaSingleProducer`, `SdmaRefinement`, `SdmaSimulation`). Any number of producers reserve
  space with a compare-and-swap, place packets and publish them in commit order, while the
  engine consumes up to the write pointer. The engine is a decoder of the ring's words, so that FIFO delivery
  is a statement about the words in the ring and not about the producers' intentions. The
  single-producer handle is a second state machine over the same ring, and is simulated by the
  first step by step, engine and memory included.
- **Cross-GPU barrier** (`Barrier`). The pointer tables that pair every signal slot with one
  remote writer, and the store-and-poll protocol over them.
- **Kernel module** (`KernelList`, `Holding`, `PoisonedQids`, `Quiesce`, `ContigAlloc`). Three
  lifecycles over interleaved ioctls, probes and a delayed worker. `KernelList` holds the list
  walks, `Holding` the counting of who holds what.
- **NVMe PRPs** (`Prp`, `PrpPool`). The scatter list, the controller's decoder of it (section
  4.3 of NVM Express Base Specification 1.4; the comment in the code says 4.4), and the pool the
  lists live in.
- **Smaller cores** (`FioRing`, `TimingStats`, `BnxtSizing`, `CsvWriter`). The in-flight ring
  of the fio engine, the lock-free statistics, the sizing of BNXT queues, and the CSV writer
  against section 2 of RFC 4180.

`Modular` has the facts about division with a symbolic modulus.

## Reading the model

Code that shares memory between agents is a state machine whose steps are the code's loads,
stores, compare-and-swaps and critical sections; each step is sequentially consistent.
`IsRun` is a sequence of enabled steps from the initial state and `Reachable` the end of one.
Code that works in place is a class or a method over an array with loops. Integers are
unbounded; where the code's width matters the remainder is written out.

Parameters stand for what the environment decides: the answers of `rxio_post_work` and
`rxio_reap`, the outcome of every allocation and of `dma_mmap_coherent`, the rounds that fit
before a deadline, the page size, the ring size and the packet generation.

Assumptions of the SDMA model: an absolute ring index does not reach 2^64; the ring size is a
positive multiple of 4; a batch has at most 64 KiB, so that the padding in front of it fits the
14-bit count of one NOP packet; the engine consumes up to `wptr` and runs one packet in one
step; an OSS7 engine tells the 19-dword packet from the 7-dword copy by its header.

The barrier model has one thread per peer in every block, so a block is launched with at least
as many threads as there are peers.

Where the code falls short of what its surroundings suggest, the model keeps the code and
states the exact condition:

- the copy packet asserts sizes up to 2^32 but its count has 30 bits: right exactly up to 2^30
  (`CopyCountExact`);
- fusing a copy with a signal or counter keeps its meaning exactly for addresses aligned to 8
  bytes, for every put/signal/counter request (`FusionExact`);
- the single-producer handle takes every batch smaller than the ring, the multi-producer one
  only where batch and padding together are smaller (`SingleIff`, `MultiIff`, with a 28-byte copy
  in a 32-byte ring as `SmallRingExample`);
- `quietAll` with a state waits for all of a thread's work exactly when its latest submission
  was given that state (`QuietExact`, with a run that shows the failure);
- a PRP transfer is right exactly when its list fits into the page it starts in
  (`RightIffFits`);
- the word offset and the DMA address of a list slot agree exactly when a slot reserves at least
  512 entries or is the first one (`SamePlaceIff`, `PoolAgreesIff`);
- a `getevents` call drops no completion, and stores no failed one outside its array, whatever
  the hardware answers, exactly when max events, or all operations in flight on its files
  together, fit the array (`LosslessIff`, `InsideIff`);
- a hijack recorded by `poisoned_qid_mark_created` lasts until the next delete of its queue
  exactly when no resurrection of that queue was pending when it was recorded
  (`CreateLastsIff`); otherwise the sweep may clear it, and `LosesADelete` is a run in which a
  deleted queue is never handed over;
- `roundup_pow2` is right exactly up to 2^63 (`RoundupIff`), and `align_up`, `compute_sq` and
  `compute_rq` exactly where the unbounded sizes stay below 2^32 (`AlignUpIff`, `SqExact`, `RqExact`);
- the PRP overload without a list is right exactly for at most two pages (`TwoPagesIff`);
- a CSV row reads back exactly when no value streamed raw holds a comma, quote or newline
  (`ReadsBackIffPlain`); a row without values reads back as one empty field
  (`EmptyRowReadsAsOne`).

## Model

| member | source | states |
|---|---|---|
| `SdmaPackets.DecodeWords` | src/endpoints/sdma-ep/sdma_packets.hpp:33-57 | An engine of the right generation decodes the words of any packet, whatever follows them, to that packet and its length |
| `SdmaPackets.DecodeAtomic` | src/endpoints/sdma-ep/sdma_packets.hpp:160-183 | The words of an atomic add decode to the same address and addend |
| `SdmaPackets.DecodeEncodeAll` | src/endpoints/sdma-ep/sdma_packets.hpp:33-183 | Decoding the concatenated words of a packet sequence gives back the sequence |
| `SdmaPackets.EncodeAppend` | src/endpoints/sdma-ep/sdma_device.hpp:378-408 | Placing two sequences one after the other places the words of their concatenation |
| `SdmaPackets.ReservedAreZero` | src/endpoints/sdma-ep/sdma_packets.hpp:33-183 | The packet structures leave every reserved dword zero, and a fused packet without a signal address its whole signal part |
| `SdmaPackets.DecodedByHeader` | src/endpoints/sdma-ep/sdma_device.hpp:592-654 | An engine takes dwords for a packet only by the operation in the header, and for an add only by its code |
| `SdmaPackets.CopyCountExact` | src/endpoints/sdma-ep/sdma_packets.hpp:40-45 | For every size the assertion admits, the decoded copy has that size if and only if it is at most 2^30 bytes |
| `SdmaPackets.FusedSignalExact` | src/endpoints/sdma-ep/sdma_device.hpp:155-202 | The decoded fused packet has the requested signal address if and only if that is a multiple of 8 |
| `SdmaPackets.FusedMisreadBeforeOss7` | src/endpoints/sdma-ep/README.md:221-225 | An engine before OSS7 decodes the fused packet as a 7-dword copy and goes on inside it |
| `SdmaPackets.ReadBack64` | src/endpoints/sdma-ep/sdma_device.hpp:731-737 | A 64-bit value written to memory is read back |
| `SdmaPackets.ExecFrame` | src/endpoints/sdma-ep/sdma_device.hpp:592-654 | Running a packet changes only the bytes of its destination and its signal |
| `SdmaPackets.CopyMoves` | src/endpoints/sdma-ep/sdma_packets.hpp:33-57 | Every byte of the destination of a copy, fused or not, is the source byte before it, outside the signal of a fused one |
| `SdmaPackets.AddsToCell` | src/endpoints/sdma-ep/sdma_packets.hpp:160-183 | An atomic adds its addend to the 64-bit value at its address modulo 2^64, a fused one after its copy |
| `SdmaPackets.BatchParts` | src/endpoints/sdma-ep/sdma_device.hpp:592-654 | One packet for each part of a request, in order, except that an OSS7 copy carries the signal, or without one the counter |
| `SdmaPackets.BatchFillsReservation` | src/endpoints/sdma-ep/sdma_device.hpp:592-654 | In every put/signal/counter combination, both generations and any alignment, the packets placed can be encoded and take exactly the bytes reserved, at most 108 |
| `SdmaPackets.FusionPreservesMeaning` | src/endpoints/sdma-ep/sdma_device.hpp:592-654 | For every combination with an aligned fused address, every byte reads the same after the fused batch and after the unfused one, from every memory |
| `SdmaPackets.RequestFillsReservation` | src/endpoints/sdma-ep/sdma_device.hpp:592-654 | The words placed for any valid request take exactly the bytes reserved and encode its batch with the fused address rounded down to a multiple of 8 |
| `SdmaPackets.FusionExact` | src/endpoints/sdma-ep/sdma_device.hpp:592-654 | For every valid request, what an OSS7 engine decodes from the words placed and what an older one decodes from the unfused words leave every byte of every memory alike if and only if the fused address, if any, is a multiple of 8 |
| `SdmaRing.PointersOrdered` | src/endpoints/sdma-ep/sdma_device.hpp:302-320 | The ring invariant orders rptr, wptr and the reserved end, and the engine has a packet to run if and only if rptr is behind wptr |
| `SdmaRing.ReservePreserves` | src/endpoints/sdma-ep/sdma_device.hpp:336-365 | Reserving a batch that fits appends a disjoint region and keeps the ring invariant |
| `SdmaRing.StoreInFreeSpace` | src/endpoints/sdma-ep/sdma_device.hpp:378-408 | The next dword of a reservation lies behind wptr and less than a ring ahead of rptr |
| `SdmaRing.StorePreserves` | src/endpoints/sdma-ep/sdma_device.hpp:378-408 | Storing it keeps every stored and unread dword of every other reservation |
| `SdmaRing.PublishPreserves` | src/endpoints/sdma-ep/sdma_device.hpp:421-458 | Publishing a fully placed region keeps the ring invariant |
| `SdmaRing.EngineReads` | src/endpoints/sdma-ep/sdma_device.hpp:421-458 | What the engine decodes at rptr is the next packet that was reserved and placed |
| `SdmaRing.ExecutePreserves` | src/endpoints/sdma-ep/sdma_device.hpp:421-458 | The engine can run whenever rptr is behind wptr, runs exactly that packet, and keeps the invariant |
| `SdmaRing.WindowDecodes` | src/endpoints/sdma-ep/sdma_device.hpp:421-458 | The words between rptr and wptr decode to the published packets not yet run |
| `SdmaRing.ConsumedIff` | src/endpoints/sdma-ep/sdma_device.hpp:470-485 | rptr has reached the end of a published region if and only if all its packets have run |
| `SdmaQueue.PadFacts` | src/endpoints/sdma-ep/sdma_device.hpp:336-365 | What is reserved for a batch is an encodable NOP, if padding is needed, and the batch: exactly the bytes up to the new index, and exactly the words placePacket stores |
| `SdmaQueue.StaleGrantIsReal` | src/endpoints/sdma-ep/sdma_device.hpp:302-320 | Space granted through a stale cached read index is also free for the real rptr when the CAS succeeds |
| `SdmaQueue.TurnIffNext` | src/endpoints/sdma-ep/sdma_device.hpp:421-458 | committedWptr equals the base of a held reservation if and only if it is the next one to commit |
| `SdmaQueue.StepPreserves` | src/endpoints/sdma-ep/sdma_device.hpp:302-485 | Every step of every producer, the engine and the outside keeps the queue invariant |
| `SdmaQueueRuns.RunKeepsInv` | src/endpoints/sdma-ep/sdma_device.hpp:302-485 | The invariant holds at every moment of every run |
| `SdmaQueueRuns.Fifo` | src/endpoints/sdma-ep/sdma_device.hpp:336-458 | In every reachable state, what has run plus what decodes between rptr and wptr is the published batches in reservation order, each once, up to NOPs |
| `SdmaQueueRuns.PaddedGrant` | src/endpoints/sdma-ep/sdma_device.hpp:336-365 | The padding NOP ends at the ring end and no packet of the reservation crosses it |
| `SdmaQueueRuns.RingSafe` | src/endpoints/sdma-ep/sdma_device.hpp:302-408 | Reservations are contiguous and disjoint, cachedWptr stays less than a ring ahead of rptr, no packet crosses the ring end |
| `SdmaQueueRuns.StoreSafe` | src/endpoints/sdma-ep/sdma_device.hpp:378-408 | A store hits only its producer's own reservation and no dword the engine has yet to read |
| `SdmaQueueRuns.PublishExclusive` | src/endpoints/sdma-ep/sdma_device.hpp:421-458 | At most one producer is between its turn and its committedWptr store |
| `SdmaQueueRuns.OnPlacedBoundary` | src/endpoints/sdma-ep/sdma_device.hpp:421-458 | wptr, doorbell and committedWptr are ends of fully placed reservations |
| `SdmaQueueRuns.ExactlyOneTurn` | src/endpoints/sdma-ep/sdma_device.hpp:421-458 | While committedWptr is behind cachedWptr exactly one outstanding reservation has its base there, and a producer holds it |
| `SdmaQueueRuns.PointersGrow` | src/endpoints/sdma-ep/sdma_device.hpp:421-458 | wptr, doorbell, committedWptr, rptr and the reserved end never move back |
| `SdmaSubmission.BatchesKept` | src/endpoints/sdma-ep/sdma_device.hpp:336-455 | Along every interleaving the batches a thread has begun are those it has reserved, in order, and the one it is still reserving: a lost compare-and-swap or a full ring drops none |
| `SdmaSubmission.SubmittedOnce` | src/endpoints/sdma-ep/sdma_device.hpp:336-455 | When a thread comes to rest after beginning a batch, exactly one reservation of its own was made since, for that batch, and it is committed |
| `SdmaSubmission.CacheIsLatest` | src/endpoints/sdma-ep/sdma_device.hpp:302-320 | A state caches the read index read last through it, and nothing else changes it |
| `SdmaSubmission.FastPathIff` | src/endpoints/sdma-ep/sdma_device.hpp:302-308 | A reservation with a state skips the hardware read exactly when the cached index already leaves the room |
| `SdmaCompletion.QuietCovers` | src/endpoints/sdma-ep/sdma_device.hpp:470-485 | quietAll returns only after all of the thread's batches have run: all of them without a state, the tracked ones with it |
| `SdmaCompletion.QuietExact` | src/endpoints/sdma-ep/sdma_device.hpp:470-485 | Waiting through the state covers every batch of the thread if and only if its latest submission was tracked |
| `SdmaCompletion.QuietMissesUntracked` | src/endpoints/sdma-ep/sdma_device.hpp:470-485 | A run in which quietAll returns although an untracked batch of the thread has not run |
| `SdmaWaiting.QuietIff` | src/endpoints/sdma-ep/sdma_device.hpp:470-485 | quietAll without a state returns if and only if everything published when it began has run |
| `SdmaWaiting.QuietStateIff` | src/endpoints/sdma-ep/sdma_device.hpp:470-485 | quietAll through a state returns if and only if the batches the thread had submitted with it have run |
| `SdmaWaiting.CommitRecords` | src/endpoints/sdma-ep/sdma_device.hpp:421-455 | submitPacket records the end of its reservation in the state it was given |
| `SdmaWaiting.QuietCanReturn` | src/endpoints/sdma-ep/sdma_device.hpp:470-485 | What is under way can always bring quietAll to return, without a new reservation |
| `SdmaCompletion.SignalCounts` | src/endpoints/sdma-ep/sdma_device.hpp:696-702 | A signal that starts at 0 holds the number of its increments that have run, modulo 2^64 |
| `SdmaCompletion.WaitCovers` | src/endpoints/sdma-ep/sdma_device.hpp:731-737 | waitSignal(a, n) returns only after the copies of the first n signalling batches in commit order have run |
| `SdmaWaiting.WaitIff` | src/endpoints/sdma-ep/sdma_device.hpp:220-229 | waitSignal(a, n) returns on its next step if and only if at least n of the packets run increment the signal, and otherwise polls on |
| `SdmaWaiting.WaitCanReturn` | src/endpoints/sdma-ep/sdma_device.hpp:731-737 | Once n increments are reserved, what is under way can bring waitSignal(a, n) to return, without a new reservation |
| `SdmaCompletion.CopyComesFirst` | src/endpoints/sdma-ep/sdma_device.hpp:592-654 | The first packet of a putSignal batch is its copy, fused or not |
| `SdmaCompletion.NeverStuck` | src/endpoints/sdma-ep/sdma_device.hpp:336-458 | Every producer inside an operation has an enabled step, except a CAS that would take the index to 2^64, and so has the engine with work |
| `SdmaCompletion.GrantedWhenDrained` | src/endpoints/sdma-ep/sdma_device.hpp:336-365 | On a drained ring a reservation is granted if and only if padding and batch take less than a ring |
| `SdmaCompletion.CanDrain` | src/endpoints/sdma-ep/sdma_device.hpp:378-485 | From every state of a run, steps that reserve nothing lead to a drained ring |
| `SdmaCompletion.AloneReserves` | src/endpoints/sdma-ep/sdma_device.hpp:336-365 | A producer on its own, with room, gets its reservation |
| `SdmaCompletion.HolderSubmits` | src/endpoints/sdma-ep/sdma_device.hpp:378-458 | The holder of the next turn can place and publish by its own steps alone |
| `SdmaRequests.RequestIsOp` | src/endpoints/sdma-ep/sdma_device.hpp:592-654 | The packets placed for every valid request, aligned or not, are an operation of the queue, and their words are those placed |
| `SdmaRequests.PutSignalCovers` | src/endpoints/sdma-ep/sdma_device.hpp:696-737 | Along every run of put/signal/counter requests, waitSignal(a, n) returns only after the engine has run the copy of every request before which fewer than n increments of a were reserved: that very packet of the request's own region, at its place in what was run |
| `SdmaDelivery.CopyArrives` | src/endpoints/sdma-ep/sdma_device.hpp:592-654 | Along every run a byte brought over by a copy is the source byte of the initial memory, unless an earlier packet wrote the source, a later one or a signal the destination, or something outside either |
| `SdmaDelivery.PutSignalDelivers` | src/endpoints/sdma-ep/sdma_device.hpp:696-737 | When waitSignal(a, n) returns, every byte of the destination of each covered request that other requests, its own signals and outside writes leave alone is its source byte of the initial memory |
| `SdmaPlace.PlacePacket` | src/endpoints/sdma-ep/sdma_device.hpp:378-408 | The buffer loop stores the padding words and the packet words in ring order and returns the index behind them |
| `SdmaPlace.PlaceBatch` | src/endpoints/sdma-ep/sdma_device.hpp:592-654 | Placing a batch stores the words the state machine stores and ends at the next reservation's base |
| `SdmaSingleProducer.SpStepPreserves` | src/endpoints/sdma-ep/sdma_device.hpp:514-571 | Every step of the single-producer handle and the engine keeps its invariant |
| `SdmaSingleProducer.SpSafe` | src/endpoints/sdma-ep/sdma_device.hpp:514-571 | Reservations contiguous, disjoint, clear of the ring end and less than a ring ahead; FIFO decoding; the published packets are the exposed batches; at most one pad per reservation |
| `SdmaSingleProducer.SpStoreSafe` | src/endpoints/sdma-ep/sdma_device.hpp:519-531 | A store hits only the reservation just made and no dword the engine has yet to read, at the unwrapped buffer index of the loops |
| `SdmaSingleProducer.SpFinishes` | src/endpoints/sdma-ep/sdma_device.hpp:538-570 | Every submission under way of a batch smaller than the ring can be brought to its end by the producer and the engine |
| `SdmaSubmission.SpBatchesKept` | src/endpoints/sdma-ep/sdma_device.hpp:538-555 | What the single producer has begun is what it has reserved, in order, and what it is still reserving |
| `SdmaSubmission.SpDoorbellFollows` | src/endpoints/sdma-ep/sdma_device.hpp:563-571 | The single producer's doorbell is never ahead of wptr, and at wptr whenever it is not between its two stores |
| `SdmaRefinement.SingleIff` | src/endpoints/sdma-ep/sdma_device.hpp:538-555 | Some run of the single-producer handle reserves a sequence of batches if and only if each is smaller than the ring and no index reaches 2^64 |
| `SdmaRefinement.MultiIff` | src/endpoints/sdma-ep/sdma_device.hpp:336-365 | What the single-producer handle has reserved, the other with one thread can reserve if and only if every batch and its padding, where they fall, take less than a ring |
| `SdmaRefinement.SingleBeyondMulti` | src/endpoints/sdma-ep/sdma_device.hpp:336-365 | A batch smaller than the ring but not together with its padding is reserved by the one handle and by no run of the other |
| `SdmaRefinement.SmallRingExample` | src/endpoints/sdma-ep/sdma_device.hpp:538-555 | The instance with a 28-byte copy, a 32-byte ring and start 16 |
| `SdmaSimulation.SpotsStep` | src/endpoints/sdma-ep/sdma_device.hpp:514-571 | Every step of the single-producer handle keeps each packet that is not a NOP at the byte index the multi-producer layout gives it |
| `SdmaSimulation.RoomFollows` | src/endpoints/sdma-ep/sdma_device.hpp:312-365 | Where the single producer passes its space test for a batch that with its padding is smaller than the ring, a queue whose engine has run the same packets and is not at padding passes its own |
| `SdmaSimulation.SimStep` | src/endpoints/sdma-ep/sdma_device.hpp:514-571 | Every step of the single producer or of its engine is matched by steps of a one-thread multi-producer queue, without outside writes, that keep batches, packets run and memory alike |
| `SdmaSimulation.SingleRefinesMulti` | src/endpoints/sdma-ep/sdma_device.hpp:514-571 | Every state of a single-producer run with such batches is matched by a one-thread multi-producer run from the same buffer and memory: same batches at the same byte indices, same packets up to NOPs reserved, published and run, same memory |
| `Barrier.WirePeer` | examples/sdma-ep-collectives/sdma_common.cpp:382-388 | The inner loop wires every block's slot for one peer and disturbs no other |
| `Barrier.WireSignals` | examples/sdma-ep-collectives/sdma_common.cpp:357-389 | Every lane of a rank stores into the slot its partner polls |
| `Barrier.WiringPairs` | examples/sdma-ep-collectives/sdma_common.hpp:63-76 | The index functions pair the lanes of two ranks, block by block, as an involution |
| `Barrier.OneWriter` | examples/sdma-ep-collectives/sdma_common.hpp:63-76 | A slot is written by exactly one lane: the partner of the lane that polls it |
| `Barrier.LaneOfPeer` | examples/sdma-ep-collectives/sdma_common.hpp:63-76 | Every peer is served by a lane of every block |
| `Barrier.StepPreserves` | examples/sdma-ep-collectives/sdma_common.hpp:89-102 | Every store, poll, entry and exit keeps the barrier invariant |
| `Barrier.NoneLeavesEarly` | examples/sdma-ep-collectives/sdma_common.hpp:89-102 | No block leaves barrier e before that block on every rank has entered e; ranks are at most one barrier apart |
| `Barrier.SignalsGrow` | examples/sdma-ep-collectives/sdma_common.hpp:89-102 | A slot never goes back, so a later epoch never hides an earlier one |
| `Barrier.HeldUpOnlyByPartner` | examples/sdma-ep-collectives/sdma_common.hpp:89-102 | A polling lane stays if and only if its partner has not entered yet or has an enabled store to do |
| `Barrier.EveryoneLeaves` | examples/sdma-ep-collectives/sdma_common.hpp:89-102 | Once a block has entered barrier e on every rank, whether or not some are already in a later one, stores, polls and exits alone lead to its having left e on every rank |
| `KernelList.Find` | kernel/rocm-xio/rocm-xio.c:600-605 | The walk stops at the first entry that satisfies the test |
| `KernelList.Take` | kernel/rocm-xio/rocm-xio.c:2982-2989 | The walk leaves the entries that do not match, in order, and collects the others at the head of a private list |
| `KernelList.SplitTotal` | kernel/rocm-xio/rocm-xio.c:2982-2989 | The move loses no entry and doubles none, in any count over entries |
| `PoisonedQids.QidTracker.MarkIfTracked` | kernel/rocm-xio/rocm-xio.c:596-612 | First critical section of mark_created: the tracked entry becomes hijacked, or nothing changes |
| `PoisonedQids.QidTracker.RecheckAndInsert` | kernel/rocm-xio/rocm-xio.c:626-637 | Second critical section: mark the entry found meanwhile, else insert at the head |
| `PoisonedQids.QidTracker.MarkDeleted` | kernel/rocm-xio/rocm-xio.c:657-672 | needs_resurrect is set, and the worker asked for, only on a hijacked entry |
| `PoisonedQids.QidTracker.Sweep` | kernel/rocm-xio/rocm-xio.c:2656-2686 | The worker's first phase: flags cleared and keys cloned entry by entry, out-of-memory entries left alone |
| `PoisonedQids.SweepHandsOver` | kernel/rocm-xio/rocm-xio.c:2656-2686 | Each needing key is cloned exactly once if its allocation succeeds; nothing is left needing if and only if no allocation failed |
| `PoisonedQids.SweepConserves` | kernel/rocm-xio/rocm-xio.c:2656-2686 | The keys needing before the sweep are those needing after it plus the cloned ones |
| `PoisonedQids.StepPreserves` | kernel/rocm-xio/rocm-xio.c:596-683 | Every step of every probe, the timer and the worker keeps the tracker's invariant |
| `PoisonedQids.RaisesAccounted` | kernel/rocm-xio/rocm-xio.c:596-694 | Along every interleaving: one entry per (bdf, qid), needs implies created, every needing entry has the worker or its scheduling on the way, and each raise of the flag is handed over once or still pending |
| `PoisonedQids.CanHandOver` | kernel/rocm-xio/rocm-xio.c:2643-2694 | From every state of a run in which a queue needs resurrection, steps of the worker and of probes under way hand over every raise of the flag |
| `PoisonedQids.CreateLastsIff` | kernel/rocm-xio/rocm-xio.c:596-683 | Whatever happens between a completed create and the next delete of its queue, that delete finds the queue hijacked and raises the flag if and only if no resurrection of it was pending when the create completed |
| `PoisonedQids.LosesADelete` | kernel/rocm-xio/rocm-xio.c:2656-2686 | From every initial state, a run of fifteen steps with two creates and two deletes of a queue hands it over once and ends with nothing under way |
| `Quiesce.QuiescedList.AddUnlessTracked` | kernel/rocm-xio/rocm-xio.c:2293-2343 | QUIESCE_NS adds its entry at the head if and only if its owner has none for the same device, mode and, in HCTX mode, context |
| `Quiesce.QuiescedList.RemoveMatch` | kernel/rocm-xio/rocm-xio.c:2385-2397 | UNQUIESCE_NS removes the first entry with its owner, device, mode and, in HCTX mode, context, if and only if there is one |
| `Quiesce.QuiescedList.TakeOwned` | kernel/rocm-xio/rocm-xio.c:3005-3012 | Release takes exactly its own entries |
| `Quiesce.QuiesceEnters` | kernel/rocm-xio/rocm-xio.c:2293-2320 | QUIESCE_NS enters its critical section if and only if its checks pass and its owner has no entry for the same device, mode and, in HCTX mode, context |
| `Quiesce.QuiesceTracks` | kernel/rocm-xio/rocm-xio.c:2292-2350 | A QUIESCE_NS that completes, and was not refused before the lock, has seen its owner, device, mode and context tracked |
| `Quiesce.UnquiesceRemoves` | kernel/rocm-xio/rocm-xio.c:2385-2399 | UNQUIESCE_NS takes an entry off the list if and only if its owner has one for the device, mode and, in HCTX mode, context; it takes such a one and leaves the others in order |
| `Quiesce.TrackedOnce` | kernel/rocm-xio/rocm-xio.c:2293-2320 | Two tracked entries never agree on owner, device, mode and, in HCTX mode, context |
| `Quiesce.OpenFiles` | kernel/rocm-xio/rocm-xio.c:2910-2940 | The files that may call are those opened and not released since |
| `Quiesce.CallsEnd` | kernel/rocm-xio/rocm-xio.c:2292-2430 | A call under way can take its next step, or waits for the lock and its holder can; every step brings a call nearer to its end |
| `Quiesce.RunConserves` | kernel/rocm-xio/rocm-xio.c:2281-2433 | Every step moves depth levels and file references between list, calls and block layer without losing or doubling one |
| `Quiesce.StepPreserves` | kernel/rocm-xio/rocm-xio.c:2281-2433 | Every step of every ioctl and release keeps the accounting invariant |
| `Quiesce.DepthAccounted` | kernel/rocm-xio/rocm-xio.c:2293-2343 | Along every interleaving a queue's quiesce depth is its tracked FULL entries plus raises and removals in flight, and nothing is tracked twice |
| `Quiesce.EntriesPinFiles` | kernel/rocm-xio/rocm-xio.c:2281-2345 | Each tracked entry holds exactly one reference to its file |
| `Quiesce.NeverBelowZero` | kernel/rocm-xio/rocm-xio.c:2405-2433 | Whatever level of depth or file reference a step gives back is there to be given back, and it gives back no more |
| `Quiesce.NothingLeftBehind` | kernel/rocm-xio/rocm-xio.c:3000-3033 | A released file owns no entry, and once all files are released every depth and reference count is zero |
| `ContigAlloc.StepPreserves` | kernel/rocm-xio/rocm-xio.c:2549-2606 | Every step of alloc, mmap, VMA open and close, free and release keeps the reference invariant |
| `ContigAlloc.FreedExactlyOnce` | kernel/rocm-xio/rocm-xio.c:211-217 | Along every interleaving the kref counts the list, the mappings and the calls, and an entry is freed once if it has no holder left and otherwise not at all |
| `ContigAlloc.NeverFreedWhileHeld` | kernel/rocm-xio/rocm-xio.c:902-910 | Nothing listed, mapped or in the hands of an mmap or free has been freed |
| `ContigAlloc.MapsOwnMemory` | kernel/rocm-xio/rocm-xio.c:2549-2606 | A mapping shows an allocation of its own file and not past its end |
| `ContigAlloc.MapFinds` | kernel/rocm-xio/rocm-xio.c:2554-2574 | mmap takes a reference to the first allocation listed for its file under the id asked for, if and only if there is one, and otherwise changes nothing |
| `ContigAlloc.MapSucceeds` | kernel/rocm-xio/rocm-xio.c:2576-2597 | A mapping succeeds if and only if dma_mmap_coherent does and it is not larger than the allocation |
| `ContigAlloc.MappedAsAsked` | kernel/rocm-xio/rocm-xio.c:2550-2605 | Every mapping shows the allocation, listed then, that an mmap call of its file named by id, with the size of that call |
| `ContigAlloc.FreeTakes` | kernel/rocm-xio/rocm-xio.c:2479-2500 | FREE_CONTIG_QUEUE takes exactly the first allocation with that id and owner off the list, if and only if there is one, and leaves the others in order |
| `ContigAlloc.IdNames` | kernel/rocm-xio/rocm-xio.c:2173-2176 | mmap and free with the id of a listed allocation take that allocation if and only if its file has no newer listed one of the same id, and always while at most 2^32 were made |
| `ContigAlloc.MadeAsAsked` | kernel/rocm-xio/rocm-xio.c:2126-2176 | The allocations made are those asked for with 1 to 16777216 bytes, in order, each with its file and size and the next id modulo 2^32 |
| `ContigAlloc.ListedIsInReach` | kernel/rocm-xio/rocm-xio.c:2550-2556 | A listed allocation of an open file can be mapped and freed by its id |
| `ContigAlloc.CallsEnd` | kernel/rocm-xio/rocm-xio.c:2554-2597 | A call under way can always take its next step, and each brings it nearer to its end |
| `ContigAlloc.NoLeak` | kernel/rocm-xio/rocm-xio.c:2982-2998 | Once a file is released and unmapped, all it allocated has been freed |
| `Prp.CalculatePrps` | src/endpoints/nvme-ep/nvme-ep.h:679-728 | PRP1, PRP2 and the list words for contiguous and scattered buffers, and no other list word is changed |
| `Prp.CalculatePrpsTwoPages` | src/endpoints/nvme-ep/nvme-ep.h:739-754 | PRP1 and PRP2 of the overload without a list |
| `Prp.ListPagesExact` | src/endpoints/nvme-ep/nvme-ep.h:693-700 | The 32-bit page count is exact up to 512 and otherwise 512, or 0 where the sum wraps |
| `Prp.RoundTrip` | src/endpoints/nvme-ep/nvme-ep.h:679-728 | Decoding PRP1, PRP2 and a list that fits visits exactly the bytes of the buffer, in order |
| `Prp.RightIffFits` | src/endpoints/nvme-ep/nvme-ep.h:679-728 | Decoding is right for every memory that holds the list if and only if the list fits into the page it starts in |
| `Prp.RightIffOneListPage` | src/endpoints/nvme-ep/nvme-ep.h:697-700 | On a page-aligned list: if and only if at most 512 pages follow the first |
| `Prp.TwoPagesIff` | src/endpoints/nvme-ep/nvme-ep.h:739-754 | The overload gives what the general function gives, and decodes to the buffer for every memory, if and only if the buffer touches at most two pages |
| `Prp.ContiguousBytes` | src/endpoints/nvme-ep/nvme-ep.h:672-673 | Without a page table the bytes the decoder must visit are consecutive addresses |
| `PrpPool.SamePlaceIff` | src/endpoints/nvme-ep/nvme-ep.h:141-198 | Word offset and DMA address of a batch and direction denote the same place if and only if its slot is the first or prpEntriesPerCmd is at least 512 |
| `PrpPool.PoolAgreesIff` | src/endpoints/nvme-ep/nvme-ep.h:141-198 | The same for the whole pool |
| `PrpPool.SlotsDisjoint` | src/endpoints/nvme-ep/nvme-ep.h:175-198 | Reserved lists of different batches, and of the two directions in dual mode, overlap neither in words nor in DMA addresses |
| `PrpPool.InsidePool` | src/endpoints/nvme-ep/nvme-ep.h:175-182 | Every reserved list lies inside the pool |
| `PrpPool.SlotTransfers` | src/endpoints/nvme-ep/nvme-ep.h:141-152 | In an aligned pool of whole list pages a transfer through any slot is right if and only if it needs at most 512 list entries |
| `PrpPool.DirectionsApartIff` | src/endpoints/nvme-ep/nvme-ep.h:158-200 | Reads and writes of a batch have slots and lists of their own exactly when prpSlotsPerBatch is 2 |
| `PrpPool.NoListAddress` | src/endpoints/nvme-ep/nvme-ep.h:141-152 | Without a table, and without a pool address or entries, the list address is 0 |
| `PrpPool.FillTable` | src/endpoints/nvme-ep/nvme-ep.hip:2399-2413 | The table holds the physical address of every slot, and the loop succeeds if and only if each is known and on a page |
| `PrpPool.TableAgrees` | src/endpoints/nvme-ep/nvme-ep.h:141-200 | With such a table the address given to the controller is that of the words written, for every batch, direction and stride |
| `PrpPool.TableTransfers` | src/endpoints/nvme-ep/nvme-ep.h:141-200 | Through such a table a transfer is right if and only if it needs at most 512 entries |
| `FioRing.FileRing.constructor` | docker/rocm-xio-engine/rocm-xio.c:129-143 | A new ring is empty and its depth is the one asked for, brought into 1 to 63 |
| `FioRing.FileRing.Queue` | docker/rocm-xio-engine/rocm-xio.c:208-272 | Every answer of queue(), also for a file without engine data; exactly the QUEUED io_us are accepted, a failed post leaves the ring as it was |
| `FioRing.FileRing.Retire` | docker/rocm-xio-engine/rocm-xio.c:338-342 | The oldest accepted io_u leaves the ring, never a null slot |
| `FioRing.ReapFile` | docker/rocm-xio-engine/rocm-xio.c:323-345 | The events added are the oldest io_us of the file in order with the outcome each was reaped with |
| `FioRing.LosslessIff` | docker/rocm-xio-engine/rocm-xio.c:285-364 | No answers, min or number of rounds make a getevents call drop a completion if and only if max events, or all in flight on its files together, fit the array |
| `FioRing.InsideIff` | docker/rocm-xio-engine/rocm-xio.c:285-364 | No answers, min or number of rounds make the error path of a call store outside the array if and only if max events, or all in flight together, fit it |
| `FioRing.Deliver` | docker/rocm-xio-engine/rocm-xio.c:327-345 | One completion moves the oldest io_u of the ring into the next event; without room it is dropped, or reported as a store outside the array if it failed |
| `FioRing.GetEvents` | docker/rocm-xio-engine/rocm-xio.c:285-364 | Number of events, their error flags, what stays in flight and whether a store misses the array, as the answers decide; each file's io_us among the events are those that left its ring, in order and each once, and all of them if max events, or all in flight, fit the array |
| `FioRing.StopsWhen` | docker/rocm-xio-engine/rocm-xio.c:315-360 | A call ends after the first pass that has found min events or stored outside the array, or with its rounds used up, and not before |
| `FioRing.LoopEnds` | docker/rocm-xio-engine/rocm-xio.c:323-345 | The loop over a file takes completions up to the first that failed, the first operation not done, max events or the empty ring |
| `FioRing.ReadyRound` | docker/rocm-xio-engine/rocm-xio.c:318-346 | With every completion in, one pass over the files finds min(max, in flight) events |
| `FioRing.Session` | docker/rocm-xio-engine/rocm-xio.c:208-371 | Over every sequence of queue() and getevents() calls what a file accepted is what was queued, and if each call asks for at most what the array holds, or the array holds the depths of the files together, the io_us of a file in the events, followed by those in its ring, are those accepted, in order and each once |
| `TimingStats.StepPreserves` | src/include/xio-timing.h:35-55 | Every atomic step of every update keeps the statistics' invariant |
| `TimingStats.FinalStats` | src/include/xio-timing.h:35-55 | When all updates are done, count and sum modulo 2^64, minimum and maximum are those of the samples and the initial values |
| `TimingStats.RetryCloser` | src/include/xio-timing.h:39-55 | A failed compare-and-swap strictly lowers oldMin (raises oldMax); a successful one ends the loop |
| `TimingStats.EveryStepAdvances` | src/include/xio-timing.h:35-55 | Under any interference every step of a call takes it to a later stage or, in a loop, strictly nearer to the sample |
| `TimingStats.FinishesAlone` | src/include/xio-timing.h:35-55 | Left alone a call is done after at most eight steps from wherever it is |
| `BnxtSizing.SmearDoubles` | src/endpoints/rdma-ep/bnxt/bnxt-dv-sizing.hpp:46-57 | A smearing step with shift k turns k leading ones into 2k |
| `BnxtSizing.RoundupIff` | src/endpoints/rdma-ep/bnxt/bnxt-dv-sizing.hpp:46-57 | The result is the least power of two not below n if and only if n is at most 2^63, and 0 above |
| `BnxtSizing.Roundup` | src/endpoints/rdma-ep/bnxt/bnxt-dv-sizing.hpp:46-57 | The reassignments compute the rounding: least power of two up to 2^63, 0 above |
| `BnxtSizing.AlignUpIff` | src/endpoints/rdma-ep/bnxt/bnxt-dv-sizing.hpp:59-61 | The masked sum is the least multiple of a power of two not below the value if and only if the 32-bit sum does not wrap |
| `BnxtSizing.IdealHolds` | src/endpoints/rdma-ep/bnxt/bnxt-dv-sizing.hpp:75-102 | The unbounded sizes: slots in groups of 256 that hold max_send_wr + 1 WQEs of the requested SGEs and inline data, a least power-of-two PSN table, the least page-aligned length covering both |
| `BnxtSizing.SqExact` | src/endpoints/rdma-ep/bnxt/bnxt-dv-sizing.hpp:75-102 | compute_sq returns the unbounded sizes if and only if they, rounded to pages, stay below 2^32 |
| `BnxtSizing.SqHolds` | src/endpoints/rdma-ep/bnxt/bnxt-dv-sizing.hpp:75-102 | What compute_sq then returns holds what was asked for |
| `BnxtSizing.SqBound` | src/endpoints/rdma-ep/bnxt/bnxt-dv-sizing.hpp:75-102 | A product bound on the inputs that is enough for it |
| `BnxtSizing.RqExact` | src/endpoints/rdma-ep/bnxt/bnxt-dv-sizing.hpp:110-128 | compute_rq returns the unbounded sizes if and only if they, rounded to pages, stay below 2^32 |
| `BnxtSizing.RqHolds` | src/endpoints/rdma-ep/bnxt/bnxt-dv-sizing.hpp:110-128 | Slots for max_recv_wr + 1 WQEs in whole pages, or all zero when none are asked for |
| `CsvWriter.Writer.WriteValue` | examples/sdma-ep-bench/csv_writer.hpp:32-56 | The separator and the value, quoted and with its quotes doubled where it is a string that needs it |
| `CsvWriter.Writer.WriteRow` | examples/sdma-ep-bench/csv_writer.hpp:17-29 | The record of the row is appended to the stream |
| `CsvWriter.RowReadsBack` | examples/sdma-ep-bench/csv_writer.hpp:17-56 | A non-empty row, whatever follows it, is read back as exactly its fields |
| `CsvWriter.ReadsBackIffPlain` | examples/sdma-ep-bench/csv_writer.hpp:32-50 | A non-empty row is read back if and only if no raw value holds a reserved character |
| `CsvWriter.PrintsApart` | examples/sdma-ep-bench/csv_writer.hpp:17-44 | Distinct non-empty rows of strings never print alike |
| `CsvWriter.EmptyRowReadsAsOne` | examples/sdma-ep-bench/csv_writer.hpp:17-29 | A row without values prints and reads like a row of one empty string |
| `CsvWriter.FileReadsBack` | examples/sdma-ep-bench/csv_writer.hpp:17-56 | A file of such rows is read back row by row |

## Left out

- GPU memory ordering (relaxed atomics, `s_waitcnt`, wave barriers, fences): every load, store and compare-and-swap is one sequentially consistent step.
- putTile, fence, poll and timestamp packets, and the wait part of the fused packet: never produced by the modelled path, and more packet formats of the same kind.
- Ring indices that wrap around 2^64, and batches over 64 KiB.
- `SdmaQueueHostHandle` and queue creation: host plumbing around the modelled handles.
- SdmaCompletion.CanDrain: shows that a drained state can be reached, not that every schedule reaches it; that would take a fair scheduler. The same holds for `PoisonedQids.CanHandOver`, `Barrier.EveryoneLeaves`, `SdmaWaiting.WaitCanReturn` and `SdmaWaiting.QuietCanReturn`.
- Barrier epochs that wrap around 2^64, and host-side setup and teardown of the IPC handles.
- Whether a hardware context is stopped exactly while tracked: stop and start are a flag, and the first of two holders to resume restarts it; `Quiesce` covers the FULL-mode depth and the transient raise of the HCTX mode.
- The second phase of the resurrection worker (admin commands to the controller), snapshot handling, and `copy_to_user` roll-backs of the kernel module.
- ContigAlloc.StepPreserves: an allocation is one step from `kref_init` to `list_add`, since nothing else can see the entry in between.
- The critical sections of the kernel module are single steps (the one of QUIESCE_NS is four); the list is a sequence, so that link pointers and aliasing between list nodes are not modelled.
- Endless spinning of `getevents` without a deadline; and what happens after a store outside its array, where the model stops.
- FioRing.Session: says nothing about the order of events once a completion was dropped, and ends at a store outside the array.
- The host path of the timing statistics (`std::atomic`), which repeats the device path.
- BnxtSizing.SqHolds: promised where the sizes fit below 2^32, which `SqExact` shows to be exactly where compute_sq is right; the struct is computed as a value instead of field by field.
- BnxtSizing.RqHolds: promised where the sizes fit below 2^32, which `RqExact` shows to be exactly where compute_rq is right.
- The TEXTDATA of RFC 4180 is every character but comma, quote and newline, so that carriage returns and control characters are text.
- Other endpoints, RDMA backends, command lines, benchmark drivers, bindings and generated packet macros: plumbing around the modelled cores.
