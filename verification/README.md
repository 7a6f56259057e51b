# freepacket, modelled and proved in Dafny

freepacket is a packet pipeline: generators build TCP packets and deal them out to parsers, parsers
turn them into flow items and hand those to managers, and managers reassemble the payloads of a
connection into sessions that a sweeper thread ages out. The stages are joined by bounded ring
queues, and every packet, flow item and session node comes from a pool that is itself such a ring.
This project models that pipeline and proves what its spin loops, batch shortcuts and in-place
patches rely on.

`dafny verify dfyconfig.toml` checks everything.

## How the model is laid out

| files | content |
|---|---|
| `Ring`, `RingBatch`, `RingBuffer`, `RingProtocol` | the ring queue: its meaning, its batch forms with their 32-bit locals, the class with the array, and the lock-free interleaving of a sender and a receiver |
| `Ledger`, `Pipeline`, `PipelineInvariant`, `PipelineSafety`, `PipelineSessions`, `PipelineTheorems` | who holds which object; the four kinds of threads as one state machine over ideal bounded queues; its invariant, kept by every step; and what follows for every reachable state |
| `PipelineRings`, `PipelineRingTheorems` | the same threads over the rings themselves, with the guards, wrap-around and 32-bit locals of the single and batch operations; that this machine refines the ideal one, and the guarantees over the rings |
| `PipelineBytes`, `PipelinePackets`, `PipelineCounts`, `PipelineRingBytes` | the payloads in packets and session buffers while managers and sweeper run concurrently; the packets' bytes from the generators' counters to the session buffers; the counts of the buckets; and all three over the rings |
| `PipelineFootprint` | that no step reads or writes more than the ownership theorems say it touches: fields, payloads, packet bytes, time stamps and links |
| `Routing`, `PipelineProgress`, `PipelineStranding`, `PipelineWedge` | the round-robin rule, deadlock freedom, what happens to a generator that feeds too many parsers, and the exact bound |
| `RingSteps`, `PipelineSplit`, `PipelineSplitRuns` | the pipeline with every ring operation taken apart into its check, its slot accesses and its publication; that it refines the one above, and the other way round |
| `PipelineStarving`, `PipelineDeepProgress` | a manager that waits for a session node under a bucket's lock: the sweeper's way to it, when the wait can end, and deadlock freedom at every depth |
| `PipelineTrack`, `PipelineStarvation`, `PipelineExhaustion`, `PipelineStandstill` | a run, step by step, that uses up the session nodes and brings the whole program to a standstill |
| `PipelineWear` | a run that wears out the 32-bit local of the batch operations |
| `SessionList`, `SessionTable`, `Primes` | the intrusive lists, pooled nodes and buckets on the heap, as a refinement of a map from flow key to bytes |
| `Register`, `CrcTable`, `Crc`, `Crc32` | shift registers over any word, the table, and the CRC loops against the bit-serial CRC-32 of section 8 of RFC 1952 |
| `Checksum` | the Internet checksum of RFC 1071 and its use on the header of section 3.1 of RFC 791 |
| `FlowKey`, `AddressRange`, `PacketFormat`, `PacketBuilder` | flow keys and their hashes, the counters behind addresses and ports, the packet byte by byte, its writer, its patcher and its parser |
| `Common`, `Arith` | machine words and sizes; division with remainder by a variable |

The pipeline is modelled twice. `Pipeline` moves objects between ideal bounded queues; `PipelineRings`
performs every step on the rings, by `Put`, `Get`, `PutMany`, `GetMany` and `GetManyTile`. A thread can step on the
rings exactly if it can on the ideal queues (`CanStepIff`), and to the same effect, as long as no batch writes back a
counter that has lost its upper half (`StepRefines`); the first batch that does leaves its ring broken (`InOrderIff`).
States reached without one are called `Healthy`, and the theorems over the rings are about these. Any run in which each
parser queue, flow pool and packet pool has carried fewer than 2^32 objects is one of them (`FewIsHealthy`); single
operations need no bound. Ring operations are single steps there. `PipelineSplit` takes them apart: a thread checks the
counters, reads or writes the slots one by one and publishes its counter, with any number of threads in the middle of
operations, and each such state stands for a reachable state of the pipeline, an operation taking effect when it is
published (`SplitRefines`). An operation under way can always go on (`GoesOn`, `Finishes`), and every run over the rings
is a run of such parts (`RunIsSplit`). `RingProtocol` proves the refinement for one ring by itself. The configuration carries the two hashes as arbitrary functions of the key, so the theorems hold for any hash;
`SourceIsRouted` puts the program's own hashes back in. The session table does the same with
its bucket hash. `pipe_depth` is reloaded while the threads run, so every test of it may go either way.

## What turned out not to hold, and the exact conditions

- The batch forms of the ring copy a 64-bit counter through a 32-bit local and write it back. They do
  what single operations do, and leave the ring in order, if and only if the advanced counter fits 32 bits (`PutManyExact`,
  `GetManyExact`, `PutManyValidIff`, `GetManyValidIff`). A batch of one put in after 2^32 - 1 elements leaves the ring
  invalid (`PutManyBreaks`); so does the batch a parser takes when 2^32 packets have gone through its queue, and
  the generator is refused from then on (`GetManyBreaks`). Runs do get there: with `pipe_depth` at 2, a generator and its
  one parser wear out the pool's counter after 2^26 - 32 batches, and the parser, which no ring refuses before
  (`ParserNeverRetries`), is refused (`WearsOut`).
- A manager that waits for a session node holds a bucket's lock, and the sweeper, which goes through all buckets in order,
  stops there. The wait can ever end if and only if the pool or the sweeper's hand has a node of that manager, or the
  sweeper comes by one before it meets a dead end: the bucket of a waiting manager for which it has come by none
  (`WaitEndsIff`). So it never ends if the sweeper was not started, which `pipe_depth` decides once, at the start
  (`NotStarted`), nor if the sweeper is about to enter that very bucket (`StoppedHere`), wherever the other nodes are. If no
  manager waits, or one that does can be served, then a generator that does not feed too many parsers, one of those parsers
  or a manager can go on, at every depth (`DeepProgress`).
- The program can come to a standstill in which no thread can step: with its own hashes, one generator and one parser,
  for any numbers of managers and buckets, and whether the sweeper was started or not (`SourceStandsStill`); and by the
  packets of its own generator, with one thread of each kind, 131072 source addresses or more and a single destination
  address, and `pipe_depth` raised to 5 after the start (`OwnPacketsStandStill`).
- The test for room in a session adds two 32-bit lengths. It says whether there is room if and only if the sum fits
  32 bits (`TestIsRightIff`); a packet that claims longer headers than it has is
  parsed as a payload of almost 2^32 bytes (`LongPayload`), for which the test passes wrongly (`TestWraps`).
- A generator can lose all its packets in queues that are each too short for a batch, and then never
  moves again (`WedgedForever`), if and only if the number of parsers it feeds times (batch threshold
  less one) reaches 1024 (`WedgeIff`): more than 16 parsers with the Intel ring, more than 15 with the TileGX ring,
  whose batch test asks for one more object (`WedgeBound`). Such a generator is not merely unlucky: none of its
  parsers takes a single batch in any run (`NeverABatch`).
- `ip_xsum` gives the one's complement sum exactly when the carries lost out of 32 bits do not matter
  (`XSumIsOnesSumIff`), which 65536 words and a 16-bit seed never violate and 65537 words can
  (`OneWordTooMany`).
- `crc32_32` counts its bytes in 32 bits: it is right on all buffers of a length if and only if that is below 2^30 words
  (`RightOnAllIff`), and at 2^30 words returns the CRC of nothing (`NothingCovered`).
- Patching a packet equals building it anew exactly on buffers that were built before
  (`PatchedIsRebuiltIff`), which the first pass over the pool establishes (`MakeAllPackets`).
- `next_prime` of a negative number returns its successor, prime or not (`NextPrime`).

## Model

| member | source | states |
|---|---|---|
| `Ring.PutAppends` | queue_tilegx.h:92-121 | a single enqueue appends the element, is refused exactly when the ring is full and then changes nothing, also while the 64-bit counters wrap |
| `Ring.GetTakes` | queue_tilegx.h:166-198 | a single dequeue takes the oldest element, is refused exactly when the ring is empty and then changes nothing |
| `Ring.AndMask` | queue_intel.h:47-48 | masking a counter with a power of two less one is its remainder |
| `Ring.CellsApart` | queue_tilegx.h:107-110 | elements fewer than a capacity apart never share a slot, even across the counter wrap |
| `RingBatch.PutManyExact` | queue_intel.h:55-75 | a batch enqueue is refused exactly when it does not fit; otherwise it equals the single enqueues in order if and only if the advanced counter fits 32 bits |
| `RingBatch.PutManyBreaks` | queue_intel.h:63-71 | a concrete ring that a batch of one leaves invalid because the counter is cut to 32 bits |
| `RingBatch.GetManyExact` | queue_intel.h:99-118 | a batch dequeue equals the single dequeues exactly when the advanced counter fits 32 bits, or, where too few elements are there, when the guard does not wrap |
| `RingBatch.PutManyValidIff` | queue_intel.h:63-71 | a batch enqueue that fits leaves the ring in order exactly if the advanced counter fits 32 bits |
| `RingBatch.GetManyValidIff` | queue_intel.h:107-115 | and so for a batch dequeue; otherwise the ring looks overfull and refuses every enqueue |
| `RingBatch.GetManyBreaks` | queue_intel.h:107-115 | a parser queue of 1024 cells that has carried 2^32 packets: the parser's batch breaks it and the generator is refused |
| `RingBatch.YoungBatches` | queue_tilegx.h:200-241 | while fewer than 2^32 elements have gone through, an Intel batch takes exactly the n oldest and is refused exactly if there are fewer; a TileGX batch is also refused when it would empty the ring |
| `RingBatch.YoungAppends` | queue_tilegx.h:124-163 | while fewer than 2^32 elements have gone through, a batch enqueue appends the batch or is refused because it does not fit |
| `RingBuffer.Queue.constructor` | queue_intel.h:22-38 | a new ring is empty, with a power-of-two array and both counters at zero |
| `RingBuffer.Queue.Enqueue` | queue_intel.h:39-54 | the in-place enqueue is the abstract one: contents grow by the element exactly when there was room |
| `RingBuffer.Queue.EnqueueMultiple` | queue_intel.h:55-75 | the loop over the array with its 32-bit local computes the batch enqueue, and appends the batch on a ring that stays below 2^32 |
| `RingBuffer.Queue.Dequeue` | queue_intel.h:79-97 | the in-place dequeue yields the first of the contents, or nothing exactly when there are none |
| `RingBuffer.Queue.CopyOut` | queue_intel.h:107-114 | the copying loop of a batch dequeue reads the n slots that the truncated counter designates |
| `RingBuffer.Queue.DequeueMultiple` | queue_intel.h:99-118 | the batch dequeue as a function of the old state; while fewer than 2^32 elements have gone through, it returns the n oldest in order, exactly when there are that many |
| `RingBuffer.Queue.DequeueMultipleTile` | queue_tilegx.h:200-241 | the TileGX batch dequeue as a function of the old state; while fewer than 2^32 elements have gone through, it returns the n oldest in order, exactly when there are more than that many |
| `RingProtocol.StepInv` | queue_tilegx.h:92-198 | every check, slot access and publication of either side keeps the protocol's invariant |
| `RingProtocol.RunInv` | queue_tilegx.h:92-241 | the invariant holds after every interleaving, for single operations without any bound on how many |
| `RingProtocol.FifoUnderInterleaving` | queue_tilegx.h:92-121 | under every interleaving the receiver has got a prefix of what was sent, in order, and the counters differ by what is in between, at most the capacity |
| `RingProtocol.NeverOverwrites` | queue_tilegx.h:107-110 | the sender never writes the slot of an unread element, nor the slot being read |
| `RingProtocol.Linearizes` | queue_tilegx.h:92-241 | each operation takes effect at its publication as one step of a bounded FIFO queue, and is refused exactly if that queue is too full or too empty at its check |
| `RingSteps.WriteKeeps` | queue_intel.h:63-71 | writing the next slot of an operation changes nothing that is in the ring, nor what the operation has written before |
| `RingSteps.PutManyPublished` | queue_intel.h:63-75 | once all slots of a batch are written, publishing the truncated counter completes exactly the batch enqueue |
| `RingSteps.ReadsContents` | queue_intel.h:107-114 | slot by slot a dequeue reads the contents from the front |
| `Ledger.MoveSound` | packet_generator.c:256-288 | moving objects between two places keeps each object in exactly one place that suits it |
| `Ledger.Bounded` | packet_generator.c:522-532 | the objects of one pool, wherever they are, never number more than were allocated |
| `Ledger.Conserved` | packet_manager.c:171-183 | counted over all places they can be in, they number exactly as many as were allocated |
| `PipelineTheorems.InitInv` | packet_parser.c:59-70 | the state after all pools have been filled to capacity satisfies the invariant |
| `PipelineTheorems.OneOwner` | hash.c:117-197 | no object is owned by two threads, bucket locks included |
| `PipelineFootprint.Footprint` | hash.c:81-97 | the fields of an object that a step does not touch (key, pool, packet, payload, buffer, parsed payload) neither decide whether the step is taken, nor enter into what it does to anything else, nor are changed by it, for every step of every thread |
| `PipelineFootprint.OnlyOwnMatters` | hash.c:134-147 | so in every reachable state a thread's step is the same whatever the objects hold that it does not own, and leaves them alone |
| `PipelineFootprint.TrafficFootprint` | packet_generator.c:256-288 | the same with the bytes of the packets, which generators write |
| `PipelineFootprint.TimelyFootprint` | packet_manager.c:52-73 | the same with the time stamps, with a sweeper that goes by them: it reads those of the bucket whose lock it holds and no other |
| `PipelineFootprint.SweepsByAge` | packet_manager.c:59-66 | in the pipeline with time stamps, what the sweeper unlinks has been idle for more than the limit, and what it passes or leaves has not |
| `PipelineFootprint.LinksFootprint` | list.h:30-61 | a step that changes the list of a bucket touches every node that is in it before or after |
| `PipelineRings.FetchBatch` | queue_intel.h:99-118 | a batch dequeue succeeds exactly if the ring holds the threshold, and leaves the ring in order, less its oldest 64 objects, exactly if the counter it writes back fits 32 bits |
| `PipelineRings.StoreBatch` | queue_intel.h:55-75 | a batch enqueue succeeds exactly if it fits, and leaves the ring in order, longer by the batch, exactly if the counter it writes back fits 32 bits |
| `PipelineRings.CanStepIff` | packet_parser.c:183-233 | a thread's next ring operation is accepted by the ring exactly if the ideal queue would accept it |
| `PipelineRings.StepRefines` | packet_parser.c:177-235 | every step on the rings has the effect of the step on ideal queues, if its batch, if any, writes back a whole counter |
| `PipelineRings.InOrderIff` | queue_intel.h:55-118 | a step of any thread leaves every ring in order if and only if its batch, if any, writes back a whole counter |
| `PipelineRings.RunRefines` | packet_manager.c:117-156 | every run whose batches write back whole counters is a run over ideal queues |
| `PipelineRings.FewIsWhole` | queue_tilegx.h:124-241 | in a run in which each ring that batches are used on carries fewer than 2^32 objects, every batch writes back a whole counter |
| `PipelineSplit.PublishIsStep` | queue_tilegx.h:92-241 | over the rings of the pipeline, publishing an operation that was begun and carried out slot by slot among others is the whole operation at that moment |
| `PipelineSplit.MicroInv` | queue_tilegx.h:92-241 | every check, slot access and publication of any thread keeps every operation under way right: still the one its thread is at, still acceptable, and its slots as they should be |
| `PipelineSplit.SplitRefines` | packet_parser.c:183-233 | every state of the pipeline with its ring operations taken apart stands for a reachable state of the pipeline over ideal queues, with its invariant |
| `PipelineSplit.SplitNoRace` | hash.c:103-199 | threads in the middle of ring operations, or about to step, never touch, as `Footprint` has it, the same packet, flow item or session |
| `PipelineSplit.NoSlotShared` | queue_tilegx.h:107-110 | no slot of any ring is written by one thread while another one reads or writes it |
| `PipelineSplit.BeginsIff` | queue_intel.h:39-97 | whatever others are in the middle of, an operation passes its check exactly if the step is enabled in the pipeline over ideal queues and no other sender has the ring's mutex |
| `PipelineSplitRuns.GoesOn` | queue_intel.h:63-115 | an operation under way is never stuck: it can write or read its next slot, or publish |
| `PipelineSplitRuns.Finishes` | queue_tilegx.h:92-241 | its thread alone can carry it through, and the outcome is that of the whole operation at this moment |
| `PipelineSplitRuns.StepIsRun` | packet_parser.c:183-233 | every step over the rings is a run of the parts of its operation, others being in the middle of theirs, if no other sender has the mutex |
| `PipelineSplitRuns.RunIsSplit` | packet_generator.c:245-302 | every run over the rings whose batches write back whole counters is a run of parts |
| `PipelineSplitRuns.SplitProgress` | packet_generator.c:256-280 | with no manager out of nodes and the sweeper in no bucket, a generator that feeds few enough parsers, one of those or a manager can move, or waits for a mutex whose holder can |
| `PipelineRingTheorems.Refines` | packet_generator.c:245-302 | every state of the ring machine reached with whole counters only stands for a reachable state of the ideal one |
| `PipelineRingTheorems.FewIsHealthy` | packet_parser.c:183-233 | states reached with fewer than 2^32 objects per batched ring are such |
| `PipelineRingTheorems.HealthyOn` | queue_intel.h:63-115 | a step from such a state leads to such a state or breaks a ring, according to the counter that its batch writes back |
| `PipelineRingTheorems.HealthyInv` | packet_parser.c:177-235 | in every such state, for any numbers of threads and any changes of `pipe_depth`, the invariant holds of what is in the rings and everywhere else |
| `PipelineRingTheorems.ExactlyOnePlace` | packet_generator.c:247-302 | every packet, flow item and session node is in exactly one place: in the used part of one ring, one bucket or one thread's hands |
| `PipelineRingTheorems.TouchesOwn` | hash.c:134-147 | no step touches an object its thread does not own, where to touch is to read or write as `Footprint` has it; so payload is copied before its packet is released |
| `PipelineRingTheorems.NoRace` | hash.c:103-199 | two threads that can both step next never touch, as `Footprint` has it, the same object, the sweeper's walk over a bucket included |
| `PipelineRingTheorems.GeneratorNeverRetries` | packet_generator.c:276-287 | no ring refuses a generator: no parser queue or pool is full when it sends or returns, and its first pass never finds its pool empty |
| `PipelineRingTheorems.ParserNeverRetries` | packet_parser.c:217-233 | no ring refuses the batch that a parser returns |
| `PipelineRingTheorems.ManagerNeverRetries` | hash.c:139-194 | no ring refuses the packet, flow item or node that a manager returns |
| `PipelineRingTheorems.SweeperNeverRetries` | packet_manager.c:66-69 | nor the node that the sweeper returns |
| `PipelineRingTheorems.OneSessionPerKey` | hash.c:115-153 | across all managers and buckets at most one live session exists per flow key |
| `PipelineRingTheorems.SessionsConserved` | packet_manager.c:171-183 | live sessions, pooled nodes and nodes in hand of a manager always add up to 65536 |
| `PipelineRingTheorems.RingsAreFifo` | packet_generator.c:256-288 | every step takes from the front of a ring's contents or adds at the end |
| `PipelineRingTheorems.QueuesAreRouted` | packet_parser.c:217-230 | the ring of a parser only ever holds packets of its one generator, which know their home pool; a queued flow item describes the packet it carries and is at the manager its hash names |
| `PipelineRingTheorems.SourceIsRouted` | packet_parser.c:43-47 | with the program's own hashes, every queued flow item and every live session is where those hashes say |
| `PipelineRingTheorems.ShallowProgress` | packet_generator.c:256-280 | in every run with `pipe_depth` below 5, if a generator feeds few enough parsers, then it, one of its parsers or a manager can take a step on its ring that keeps the run below that depth, wherever the sweeper is |
| `PipelineRingTheorems.NeverABatch` | packet_parser.c:183-186 | if it feeds more, none of its parsers can ever step, in any run |
| `PipelineRingTheorems.WedgedForever` | packet_parser.c:183-186 | a generator whose packets all lie in queues short of a batch stays so, whatever other threads do |
| `PipelineRingTheorems.WedgeIff` | packet_parser.c:183-186 | a run over the rings into that state exists if and only if fed parsers times (threshold - 1) reaches 1024 |
| `PipelineRingTheorems.WedgeBound` | queue_tilegx.h:209-210 | the bound in parsers per generator: more than 16 with the Intel test, more than 15 with the TileGX test |
| `PipelineWear.WearsOut` | packet_parser.c:227-233 | with `pipe_depth` at 2, for a generator that feeds one parser, a run over the rings ends in a state in which the parser is refused room for the batch it returns, because the pool's counter was cut |
| `PipelineDeepProgress.WaitEndsIff` | hash.c:117-130 | over the rings, a manager that waits for a node under a bucket's lock can ever get one if and only if its pool or the sweeper's hand has one, or the sweeper, bucket by bucket in order, comes by one before a dead end |
| `PipelineDeepProgress.DeepProgress` | packet_manager.c:96-99 | at every depth, if no manager waits for a node or one that does can be served, a generator that feeds few enough parsers, one of those or a manager can step, if need be after steps of the sweeper in its order |
| `PipelineStarving.OneNearer` | hash.c:204-217 | the sweeper's walk: having left a bucket it is one bucket nearer to every other one, across the tables of all managers and round again |
| `PipelineStarving.WaitsForever` | hash.c:127-130 | while the sweeper has a dead end before any node of a waiting manager, no step of any thread ends that wait |
| `PipelineStarving.Served` | hash.c:209-214 | otherwise the sweeper, emptying the buckets on its way, and the managers whose locks it meets bring the manager a node |
| `PipelineStarving.NotStarted` | packet_manager.c:204-207 | without the sweeper a manager whose pool is empty cannot be served |
| `PipelineStarving.StoppedHere` | hash.c:212-212 | with the sweeper about to enter the bucket that a waiting manager with an empty pool has locked, no manager with an empty pool can be served, wherever its nodes are |
| `PipelineStarvation.FreshKeysStep` | hash.c:120-153 | if every packet made gets a key of its own, no two packets and sessions in flight ever share one, although a session takes over the key of its packet |
| `PipelineExhaustion.RunStops` | hash.c:117-153 | an explicit run of fewer than 2000000 steps, with one generator and one parser: 65536 flows become sessions of the first manager, the next one finds no node, and no thread can step any more |
| `PipelineStandstill.StandsStill` | packet_parser.c:217-230 | that run over the rings, for any hashes that send the packets to the first manager: no thread's next operation is accepted by its ring, lock or pool |
| `PipelineStandstill.SourceIsOneWay` | packet_parser.c:43-47 | both hashes of the program send every flow whose addresses and ports are one number to the first bucket of the first manager |
| `PipelineStandstill.SourceStandsStill` | packet_manager.c:204-207 | with the program's own hashes, one generator and one parser, any numbers of managers and buckets, and the sweeper started or not, a standstill is reached over the rings |
| `PipelineStandstill.OwnPacketsStandStill` | packet_generator.c:204-280 | with one thread of each kind, the sweeper not started, 131072 source addresses or more and one destination address, the generator's own packets, byte for byte and with protocol 6, lead there |
| `PipelineBytes.SessionBytes` | hash.c:125-183 | in every reachable state, whatever the sweeper does meanwhile, the live sessions are those of the log, one per key; each buffer holds the payloads its manager added since the session was created, in order, and never overflows |
| `PipelineBytes.MemoryStep` | hash.c:161-184 | every step of every thread keeps that correspondence: a found session is extended if the new length stays below the buffer size and ends otherwise |
| `PipelineBytes.ReadsParsed` | hash.c:164-166 | what a manager copies out of a packet is what the flow item was made from |
| `PipelineBytes.LiveAfter` | packet_manager.c:60-72 | which steps make and end live sessions, and that no other step does |
| `PipelinePackets.TrafficStep` | packet_generator.c:204-302 | with the packets' bytes in the pipeline, every step keeps: each packet holds what its generator built or patched for one of its counters, keys and payloads in flight and in sessions are read out of such packets |
| `PipelinePackets.WrittenReads` | packet_generator.c:263-267 | whatever a generator builds or patches while the pipeline runs is the next packet of its counters, and parses to that flow and the configured payload |
| `PipelinePackets.PayloadFits` | packet_generator.c:47-63 | a built packet's payload, as a parser will find it, is the configured one, and fits a session buffer without further assumptions |
| `PipelinePackets.ParserReads` | packet_parser.c:196-199 | the bytes of every packet in a parser's hands parse to the key and the payload it is filed under |
| `PipelinePackets.ManagerCopies` | hash.c:95-96 | what a manager copies is the payload in the bytes of the packet that its flow item points to |
| `PipelinePackets.SessionsHoldText` | hash.c:81-97 | in every reachable state a live session has the key of the n-th packet of some generator, and its buffer holds the configured payload over and over, more than once only below the buffer size |
| `PipelineCounts.CountsStep` | hash.c:153-183 | every step of every thread keeps the relation of the 32-bit counts to the lists and to the nodes that are out of them |
| `PipelineRingBytes.SessionBytes` | hash.c:81-97 | along with the rings, the session buffers hold the logged payloads |
| `PipelineRingBytes.SessionsHoldText` | hash.c:81-97 | along with the rings, each live session holds the configured payload over and over, under the key of a packet that was made |
| `PipelineRingBytes.BucketCounts` | packet_manager.c:63-71 | after any run the count of a bucket is the length of its list, and one more exactly while its manager or the sweeper has unlinked a node that is not back in its pool |
| `PipelineRingBytes.CountsConserved` | hash.c:227-242 | at any moment the counts of a table, the nodes in its pool's ring and the new node in its manager's hand add up to 65536 |
| `Routing.VisitCycles` | packet_generator.c:274-275 | the round-robin rule goes round the fed parsers in order |
| `Routing.VisitedExactly` | packet_generator.c:274-275 | generator i serves parser j at some time if and only if j < p and j mod g = i |
| `Routing.FedExactly` | simulation.c:194-198 | the parsers with remainder i are exactly the ones generator i feeds |
| `PipelineProgress.IdleStrands` | packet_generator.c:256-259 | if everybody waits, all the generator's packets are stranded in queues shorter than a batch |
| `PipelineWedge.ShallowNeverStarves` | packet_manager.c:127-154 | while `pipe_depth` stays below 5 no manager waits for a session node |
| `PipelineStranding.ShareIsLoad` | packet_generator.c:274-275 | of n packets dealt out in turn each fed parser gets n / k or one more, in order |
| `PipelineStranding.OverfedSent` | packet_generator.c:256-280 | all packets of an overfed generator are in its pool, its hand or the queues, as many in each queue as were dealt out to it |
| `PipelineStranding.NeverABatch` | packet_parser.c:183-186 | every parser fed by an overfed generator is idle and short of a batch in every reachable state |
| `PipelineWedge.OverfedWedges` | packet_generator.c:245-280 | such a generator runs into the wedge within 6144 steps of its own |
| `PipelineWedge.InitialStateIsInit` | packet_generator.c:522-532 | the filled pools are an initial state, so that the statements about reachable states speak of something |
| `PipelineWedge.DealAll` | packet_generator.c:204-280 | an explicit run, of known length, in which a generator builds all its packets and sends them |
| `SessionList.InitListHead` | list.h:24-28 | makes an empty circular list |
| `SessionList.ListAddTail` | list.h:30-48 | appends a node to a well-formed circular doubly linked list |
| `SessionList.ListDel` | list.h:50-61 | removes the node from a well-formed list and clears its links; the others keep their order |
| `SessionList.FindList` | packet_manager.c:38-51 | returns the first node with the key, or null exactly when there is none |
| `SessionList.SelectExactly` | packet_manager.c:63-63 | the dropped nodes are exactly those that have expired, and for stamps not after the clock those with clock - stamp > limit; the kept ones are the others |
| `SessionList.SelectByAge` | packet_manager.c:63-63 | node by node: kept exactly if clock - stamp is at most the limit, the counter having wrapped once if it reads less than the stamp |
| `SessionList.DeleteSession` | packet_manager.c:52-73 | the walk leaves exactly the sub-sequence of unexpired nodes as a well-formed list, sends every other node to the pool once, keeps the count, and ends although it unlinks as it goes; a node stamped no later than the clock stays exactly if clock - stamp <= limit |
| `SessionTable.RefinesCreate` | hash.c:134-153 | filing a new node represents the map with the new session |
| `SessionTable.RefinesAppend` | hash.c:162-169 | extending a node represents the map with the extended session |
| `SessionTable.RefinesEvict` | hash.c:170-183 | removing a node represents the map without its key |
| `SessionTable.RefinesSwept` | packet_manager.c:60-72 | sweeping a bucket represents the map without the sessions of that bucket that are older than the limit |
| `SessionTable.LiveNodes` | hash.c:227-242 | there are as many nodes in the buckets as sessions in the map |
| `SessionTable.Table.constructor` | hash.c:41-67 | a prime number of empty buckets, larger than asked for, counts zero, a full pool, an empty map, and the program's bucket hash |
| `SessionTable.Table.Create` | hash.c:125-154 | adds the payload as a new session with a node from the pool; the rest of the map is unchanged |
| `SessionTable.Table.Append` | hash.c:161-169 | appends the payload to the session's bytes and stamps it; the rest of the map is unchanged |
| `SessionTable.Table.Evict` | hash.c:170-183 | removes the key, returns its node to a pool that has room, and leaves the rest |
| `SessionTable.Table.Add` | hash.c:103-199 | for every payload on which the 32-bit test for room is right: a missing key waits exactly while the pool is empty and else gets the payload, stamped now; a session that stays below the buffer size is extended and stamped now; any other is removed; the rest of the map is unchanged |
| `SessionTable.SweptByAge` | hash.c:204-217 | a session survives a sweep, unchanged, if and only if its bucket's clock reading is at most the limit past its stamp |
| `SessionTable.StampedSurvivesIff` | hash.c:168-168 | a session created or extended at time t survives a series of sweeps if and only if each reads its bucket's clock within the limit of t |
| `SessionTable.TestIsRightIff` | hash.c:162-162 | for a session that fits its buffer, the test on the 32-bit sum says whether there is room if and only if the sum fits 32 bits |
| `SessionTable.TestWraps` | hash.c:162-162 | a payload length, one that a parser can find, for which it passes wrongly |
| `SessionTable.Table.HasRoom` | hash.c:162-162 | the test as the program makes it, and what it decides where it is right |
| `SessionTable.Table.Sweep` | packet_manager.c:52-73 | removes from the map exactly the sessions of one bucket whose stamp is more than the limit before the clock; other buckets' lists are unchanged |
| `SessionTable.Table.HashTravelDelete` | hash.c:204-217 | after all buckets a session is in the map, unchanged, exactly if it was there and its bucket's clock reading less its stamp is at most the limit |
| `SessionTable.Table.HashCount` | hash.c:227-242 | the counts add up to the number of live sessions, and with the pooled nodes to 65536 |
| `Primes.PrimeAbove` | hash.c:18-34 | a larger prime always exists, which bounds the outer search |
| `Primes.NextPrime` | hash.c:11-36 | the least prime above a non-negative x; for a negative x, x + 1 |
| `Crc.TableIsShifted` | checksum.c:37-103 | each of the 256 table entries is its index shifted out eight times through the reflected polynomial 0xEDB88320 |
| `Crc.TableStep` | crc32.c:58-59 | one lookup is eight bit steps of the register |
| `Crc.RegisterIsLawful` | crc32.c:58-59 | the bit step is linear and reversible |
| `Register.FeedIsPacked` | crc32.c:58-59 | feeding bits one by one is adding one packed word and shifting it through |
| `Register.WindowDetected` | crc32.c:51-62 | strings that differ only inside a window no wider than the register leave it in different states |
| `Crc32.Absorb` | checksum.c:111-112 | the masked loop body takes the register through the eight bits of the byte |
| `Crc32.Lookup` | crc32.c:58-59 | so does the loop body of `crc32` |
| `Crc32.GetCRC32` | checksum.c:106-115 | the result is the bit-serial CRC-32 with seed 0, the one that `crc32` computes from seed 0 |
| `Crc32.Crc32` | crc32.c:51-62 | the result is the bit-serial CRC-32 continued from the seed |
| `Crc32.Crc32Words` | checksum.c:129-139 | the bit-serial CRC-32 of the buffer's memory up to the 32-bit byte count, which is all of it below 2^30 words |
| `Crc32.WordInMemory` | checksum.c:129-135 | the four bytes of a word, weighted by rising powers of 256, add up to it |
| `Crc32.RightOnAllIff` | checksum.c:131-131 | that is the CRC of the whole buffer, for all buffers of a length, if and only if there are fewer than 2^30 words |
| `Crc32.NothingCovered` | checksum.c:131-131 | at 2^30 words it is the CRC of no bytes, whatever the buffer holds |
| `Crc32.Chaining` | crc32.c:51-62 | the CRC of one part seeds the CRC of the next, for every cut of a message |
| `Crc32.ByteStepInjective` | crc32.c:58-59 | the byte step is injective in the register and in the byte |
| `Crc32.BurstDetected` | checksum.c:106-115 | two messages of one length that differ, and only within 32 consecutive bits at any bit position, have different CRCs |
| `Crc32.FourBytesDetected` | checksum.c:106-115 | in particular within four consecutive bytes |
| `Crc32.OneByteDetected` | checksum.c:109-113 | in particular in one byte |
| `Checksum.Fold` | checksum.c:32-33 | folding carries brings any 32-bit total to its value modulo 65535, zero only for zero |
| `Checksum.IpXsum` | checksum.c:27-36 | the result is the folded total modulo 2^32, for any words and any 32-bit seed |
| `Checksum.XSumIsOnesSum` | checksum.c:27-36 | up to 65536 words and a 16-bit seed nothing overflows, and the result is the sum with end-around carry of section 2 of RFC 1071 |
| `Checksum.XSumIsOnesSumIff` | checksum.c:30-31 | for any number of words, exactly when the wrapped total still gives that sum |
| `Checksum.OneWordTooMany` | checksum.c:30-31 | 65537 words can give a wrong sum |
| `Checksum.OnesSumIsResidue` | checksum.c:27-36 | the sum with end-around carry is 0 for a zero total and ((total - 1) mod 65535) + 1 otherwise |
| `Checksum.XSumPermuted` | checksum.c:30-31 | the order of the words makes no difference |
| `Checksum.XSumChains` | checksum.c:27-36 | summing a and then b from the result equals summing their concatenation |
| `Checksum.ChecksumIp` | checksum.c:8-24 | only the check field changes, to the complement of the sum without it; the header then sums to 0xFFFF for every length field that reaches it, over ten words for a first byte of 0x45 |
| `Checksum.HeaderWords` | checksum.c:16-16 | a first byte 0x40 + ihl makes the sum go over 2 * ihl words |
| `Checksum.CheckIff` | checksum.c:23-23 | which check values make the header sum to 0xFFFF: the one written, and 0xFFFF besides when that is 0 |
| `Checksum.OneWordDetected` | checksum.c:27-36 | replacing a word leaves the sum unchanged exactly when it is the same word, or 0 for 0xFFFF or back among words not all zero |
| `FlowKey.MixBits` | packet_parser.c:11-24 | what the mix is, bit by bit: bit k is the xor of bits k - 8, k + 4, k + 12, k + 16 of the first word and k - 6, k - 10, k - 14, k + 7 of the second, as far as they exist |
| `FlowKey.IndexWords` | packet_manager.c:133-137 | which fields the two words are for either hash, and that the index is the remainder of their mix |
| `FlowKey.IndexExamples` | packet_parser.c:43-47 | where two concrete keys go |
| `PacketFormat.CyclicAt` | packet_generator.c:44-64 | byte k of the payload is byte k mod length of the text |
| `PacketFormat.RebuiltCarries` | packet_generator.c:169-175 | whatever the buffer held, a build leaves the complete packet in it |
| `PacketFormat.PatchedIsRebuilt` | packet_generator.c:263-267 | patching a packet built for other counters equals, byte for byte, building it anew |
| `PacketFormat.PatchedIsRebuiltIff` | packet_generator.c:263-267 | it does so on exactly the buffers whose other bytes a build has written |
| `PacketFormat.ParseOfBuilt` | packet_parser.c:99-131 | parsing a built packet yields the ordered key of its addresses and ports, and a payload of pktlen - 54 bytes that is the text repeated |
| `PacketFormat.WireLayout` | packet_generator.c:105-167 | every built or patched packet at literal offsets: MAC addresses, type, version and length, total length, time to live, protocol, the source and then the destination address, the source and then the destination port, both most significant byte first, the data offset and the text |
| `PacketFormat.RestKept` | packet_generator.c:125-142 | which header bytes a build leaves as they were, and that a patch leaves all but addresses and ports |
| `PacketFormat.ReadsHeaders` | packet_parser.c:99-129 | what a parser takes from which bytes: the protocol, the larger address and port first, and where the payload starts |
| `PacketFormat.LongPayload` | packet_parser.c:130-130 | a packet shorter than its headers say is parsed as a payload of 2^32 - 40 bytes |
| `PacketFormat.SameKeyIff` | packet_parser.c:108-128 | two keys are equal exactly when protocol, unordered address pair and unordered port pair agree |
| `PacketFormat.SameFlowIff` | packet_parser.c:99-131 | two generated packets share a key exactly when they join the same two end points |
| `PacketFormat.BothDirections` | packet_parser.c:43-47 | both directions of a connection reach the same manager and bucket |
| `AddressRange.InRange` | packet_generator.c:65-104 | a counter within its range is, after n packets, minimum + (start - minimum + n) mod the size of the range, and never leaves it |
| `AddressRange.EachOnce` | packet_generator.c:65-104 | every value of the range comes exactly once in every period |
| `AddressRange.Everywhere` | packet_generator.c:65-104 | the closed form for any start and any bounds: it counts up, round the 32 bits if need be, until it meets the maximum, and cycles from then on |
| `PacketBuilder.AfterIs` | packet_generator.c:105-134 | the counters of the n-th packet are these four cycles, independent of each other |
| `PacketBuilder.Settings.NextSrcIp` | packet_generator.c:65-74 | in range, one step round the cycle: minimum + (current - minimum + 1) mod the size of the range |
| `PacketBuilder.Settings.NextDstIp` | packet_generator.c:75-84 | in range, one step round the cycle: minimum + (current - minimum + 1) mod the size of the range |
| `PacketBuilder.Settings.NextSrcPort` | packet_generator.c:85-94 | in range, one step round the cycle: minimum + (current - minimum + 1) mod the size of the range |
| `PacketBuilder.Settings.NextDstPort` | packet_generator.c:95-104 | in range, one step round the cycle: minimum + (current - minimum + 1) mod the size of the range |
| `PacketBuilder.Settings.PopPayload` | packet_generator.c:44-64 | the copying loop fills the payload with the repeated text and nothing else |
| `PacketBuilder.Settings.PopTransmissionTcp` | packet_generator.c:105-114 | the ports and the data offset, the other half of whose byte is kept |
| `PacketBuilder.Settings.PopIpLayerTcp` | packet_generator.c:125-142 | the IP header fields that are set, the others keep their content |
| `PacketBuilder.Settings.PopDatalink` | packet_generator.c:161-167 | the Ethernet header |
| `PacketBuilder.Settings.GeneratorTcpPacket` | packet_generator.c:169-175 | all layers together leave the packet of the advanced counters |
| `PacketBuilder.Settings.PatchPacket` | packet_generator.c:263-267 | the patch advances all four counters and, on a built packet, leaves what a build would |
| `PacketBuilder.Settings.MakeAllPackets` | packet_generator.c:204-229 | one rotation of the pool builds every packet, each from the next counters, and restores the pool's order |
| `PacketBuilder.PatchingIsBuilding` | packet_generator.c:245-302 | from then on the stream of patched packets equals the stream of packets built anew, for every length and every order in which packets come back, and the n-th packet carries the n-th counters of the four cycles |
| `PacketBuilder.FlowItem.MakeFlowItemTcp` | packet_parser.c:99-131 | fills the flow item with the key, the larger address and port as the upper ones, the payload's place and its unsigned length, for any bytes whose headers lie in the buffer |

## Left out

- Weak memory: fences, prefetches and cache alignment; steps are sequentially consistent.
- The `length`, `empty` and `full` fields of the Intel ring: nothing in the pipeline reads them.
- What happens after a batch has written back a cut counter: `WearsOut` shows one guarantee failing, nothing else is claimed.
- The ring object inside the session table: there the pool is the sequence that the ring holds; the pipeline over the rings has the ring itself.
- The mutex of a ring's senders is taken with the check and released with the publication, as one step each; waiting for it is not a step.
- Fairness and speed: progress means that a step is enabled, not how soon it is taken; the pacing of generators is real time.
- Which sessions have expired, and, up to `PipelineBytes`, whether a found session is extended or evicted: the pipeline allows any choice, so what holds of every run holds of the program's (`PipelineFootprint` has the time stamps as well); that a run exists which serves a manager supposes that the sessions on the sweeper's way expire in time. The session table makes the actual choices.
- `list_entry`: a node doubles as its own list head, there is no pointer arithmetic; the pool field of a session is modelled in the pipeline and fixed in the session table.
- SessionTable.Table.Add: requires of the first payload of a session that it is no longer than the buffer, because the source copies it without looking, and of later ones that the test for room is right, because where it is wrong the source writes past the buffer; the CRC it computes of an evicted session is discarded there and not repeated here.
- PipelineBytes.Allowed: likewise has generators build payloads that fit a session buffer; the text of a packet is arbitrary otherwise.
- PipelineStandstill.SourceStandsStill: one generator and one parser, and the flows of its run are arbitrary packets; `OwnPacketsStandStill` has the generator's own ones, for one manager and one destination address. Standstills with more threads or addresses are not shown.
- PipelinePackets.Setup.Valid: asks that the configured payload fits a session buffer; all generators start from copies of one configuration.
- PipelineCounts.CountsStep: linking a node and counting it in is one step, and so is returning a node and counting it out; a reader without the lock may see the moment in between.
- `ghash_view`, a counter per manager that parsers bump: it has 36 entries, so the program itself needs no more than 36 managers; the model has any number.
- Primes.NextPrime: integers are not narrowed to 32 bits.
- PacketFormat.Config.Valid: asks for a packet length of at least 54 and some text when there is payload; with less, the source copies a negative length or never leaves its loop.
- The total length field of the IP header: written as the source does, nothing is claimed of its meaning.
- Checksum.ChecksumIp: the printing inside the loop.
- Crc32.Crc32Words: memory is little-endian; the Tilera intrinsic is not part of this model.
- The UDP builder and parser: the parser loop always reads packets as TCP.
- `make_clean_packet`, the packet collectors, `mpipe.c`, `display.c`, `parse.c`, `lossratio.c`, `config.c`, `simulation.c` beyond the check g <= p: devices, sockets, files, printing and measurements.
