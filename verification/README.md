# Storage transfer pipeline of the overlay library: a Dafny model

The project models how one node of the peer-to-peer overlay stores blocks and moves them to another
node, and proves what that pipeline promises. Source paths and lines are those of `mistlib-core`.

| module | models |
|---|---|
| `WantModel`, `WantRegistryImpl` | the registry of outstanding requests and the reassembly of chunks: as a state machine, and as the class whose methods are proved to be its steps |
| `RegistryInvariant`, `RegistryProperties`, `RegistryFates`, `RegistryHistory` | what every run of the registry keeps, non-interference, resets, bounded attempts, and what becomes of a registration |
| `Frames`, `Transfer`, `TransferCompletion`, `TransferRuns`, `TransferLayouts`, `EndToEnd` | wire frames, the cut of a block into chunks, and the transfer from the responder to the waiting attempt |
| `Responder` | admission of requests per peer, and writing out one block across route losses |
| `Base32`, `Cid` | the base32 accumulators and the CIDv1 envelope |
| `LaneQueue`, `SendQueues`, `SendQueueInvariant`, `SendQueueProperties`, `SendQueueEngine` | the one-deque lane scheduler, and the per-peer queues with their spawn-on-demand workers as an interleaving transition system |
| `SeqCounters` | sequence numbers per destination, drawn together with the admission of the frame |
| `ByteBudget` | the resizable byte budget |
| `BlockCache`, `BlockRanking` | cache accounting, least-recently-used, spatial and decay victims, and what their order means |
| `StorageModel`, `StorageFiling`, `FileBlocks`, `StorageEngineImpl` | the engine: add, get, eviction, pins, restarts, failing backends |
| `StorageFetching`, `FetchOrders` | which blocks a get can rely on while each fetch may evict another one |
| `BulkPacing`, `BulkTargets` | the delay-targeted budget controller, and its promise in bytes and milliseconds |
| `Common` | options, results and sums over maps |

Where the code changes state step by step the model is a class or a loop; each method is proved to be
one step of a specification function, and the theorems are about runs of those steps. A lock-protected
section is one atomic step; everything outside locks (a receiver closing, a write finishing, a
wake-up, a backend call failing, which of several equally good victims goes first) is an event or a
choice that the theorems quantify over.

## Results

- **Transfer.** Whatever a path delivers is the original block (`TransferDelivers`), and once all frames
  the responder wrote have arrived, in any order, with any repetition and between any other operations,
  the waiting attempt has been sent the block (`SentBlockArrives`). A path that holds no assembly may go
  over to another layout at any time. While it holds one, several layouts may be mixed exactly when no
  two of them cut the block into equally many chunks (`MixingSafeExactly`): frames of two layouts with
  equal counts can be delivered together as a shorter block (`MixedLayoutsCorrupt`, `MixedExample`).
- **Registry.** The invariant of every run, exactly one outcome per data frame and which (`HaveOutcome`,
  `ChunkOutcomes`), non-interference between paths, exact resets, and the two-step bounded registration. A
  registration that still waits is what the events have made of it (`RunReflects`); otherwise it was
  served once, told of an excess once (`NoticeExactly`, `NoticeHistory`), cancelled, or abandoned.
- **Scheduler.** In every interleaving an open queue with frames has exactly one worker, exits are final,
  no wake-up is lost, and from every reachable state the frames admitted are started within a number
  of steps computed from the state (`NoStrandedFrame`). A worker also leaves a queue that was closed;
  leases on it may remain, but their admissions are refused.
- **Lanes.** Which frame a pop yields, exactly (`PopExactly`): each lane is first in, first out, and
  sixteen ordered frames pass a waiting frame, no more and no fewer if they are there (`SixteenThenOne`).
- **Sequence numbers.** Numbers are gapless per destination between evictions, and sequenced frames of
  one destination start on a queue in increasing order. That they never qualify for the independent
  writer follows from how frames are built, and is proved, not assumed. The counter given up is one
  whose destination was drawn for longest ago (`EvictsLeastRecent`); draws at one instant tie.
- **Cache.** Accounting is exact, least-recently-used victims are unique and were each used longer ago
  than what is spared (`VictimsLongestUnused`). By score, age counts in proportion to the sum of squared
  radius and squared distance (`ExchangeRate`), and eviction goes down to 95 per cent (`SpatialTarget`).
- **Pacing.** The rate is what was drained over time elapsed, in every run (`RateIsHistory`), and the
  budget the most that drains at that rate within the target delay (`BudgetExactly`).
- **Add and get.** What peers answer and where the node is are inputs. When the backend answers, adding a
  file and getting its root gives exactly the data (`AddThenGet`): from the store alone if the file fits,
  and otherwise if each of its blocks is pinned or with peers, whatever the add and the get evict. After
  an add or `add_pinned` the whole file is in the store only if it fits beside the pinned blocks, because
  capacity is enforced before the pin; and then it is, as long as victims are chosen by age
  (`FiledLeaves`, `OneByteTooLong`). It is not enough for a get that each block is stored or with peers: a
  fetch may evict a stored block, which no peer has, before its turn (`LostBeforeItsTurn`,
  `StoredOrAnsweredIsNotEnough`). Exactly when that cannot happen is settled by age: for one fetch
  (`FetchKeepsExactly`), for a get in every order of its downloads (`AlwaysGotExactly`), and for a file
  just added (`AddedGotExactly`). With positions in play it is enough that what is missing fits, or that
  every block is pinned, untracked or with peers (`Get`).
- **Pins.** A stored block that stays listed by the saved registry survives every run in which no pin
  fails to be saved while a failed unpin is outstanding (`OrderlyPinSafety`); a single failed save does
  no harm. More generally the condition is that a failed pin leaves everything the saved registry lists
  protected in memory (`PinSafety`), and where it fails a protected block can be deleted
  (`BrokenGuardDeletes`, `FailedSavesUnprotect`). A comment at
  `mistlib-core/src/storage/engine.rs:447-450` says the caller of a failed pin can retry: a retry in
  the same process succeeds without saving anything, so after a restart the root is not pinned
  (`FailedPinIsNotSaved`, and the contract of `Pin`).
- **CIDs.** Codec and digest survive the round trip for every 64-bit codec. An accepted string is
  canonical exactly when no header field has a tenth varint byte with bits to lose: the varint decoder
  drops those bits, so such envelopes are accepted under further strings (`CanonicalCid`,
  `CutHeaderExample`).

The comment at `mistlib-core/src/storage/cid.rs:89-90` says every computed CID has 59 characters. That
holds for codecs below 128; for others the envelope has up to 45 bytes, and the model follows the code.

## Model

| member | source | states |
|---|---|---|
| WantRegistryImpl.WantRegistry.DropAbandoned | mistlib-core/src/storage/protocol.rs:93-118 | pruning drops exactly the closed registrations, the lists left empty, and the assemblies no open registration asks for |
| WantRegistryImpl.WantRegistry.NoteFrame | mistlib-core/src/storage/protocol.rs:120-145 | one observation counts on every registration of that sender and path, open or closed, and nowhere else |
| WantRegistryImpl.WantRegistry.FailOversized | mistlib-core/src/storage/protocol.rs:159-181 | only the bounded registrations on the path whose limit is exceeded leave, each with a notice of the size; then the registry is pruned |
| WantRegistryImpl.TakeOversized | mistlib-core/src/storage/protocol.rs:162-178 | the in-place removal loop splits a list into the oversized registrations and the others, in order |
| WantRegistryImpl.WantRegistry.Complete | mistlib-core/src/storage/protocol.rs:183-204 | the registrations that asked this sender on this path are each sent the payload once; the others stay; then the registry is pruned |
| WantRegistryImpl.Partition | mistlib-core/src/storage/protocol.rs:186-188 | the authorised registrations and the remaining ones, each in order |
| WantRegistryImpl.WantRegistry.Wanted | mistlib-core/src/storage/protocol.rs:85-91 | true exactly when some open registration asked this sender on this path |
| WantRegistryImpl.WantRegistry.TotalBytes | mistlib-core/src/storage/protocol.rs:517-523 | the sum of the bytes of all assemblies |
| WantRegistryImpl.WantRegistry.TotalWants | mistlib-core/src/storage/protocol.rs:301 | the number of registrations over all CIDs |
| WantRegistryImpl.WantRegistry.FindAttempt | mistlib-core/src/storage/protocol.rs:328-332 | finds the registration with this number, or there is none |
| WantRegistryImpl.WantRegistry.Register | mistlib-core/src/storage/protocol.rs:277-324 | the attempt is numbered; it is kept, without paths unless local, only if it is admissible and there is room; the invariant is kept |
| WantRegistryImpl.WantRegistry.InstallLimit | mistlib-core/src/storage/protocol.rs:265-271 | the limit of exactly the numbered registration becomes the smaller of the request and 8 MiB |
| WantRegistryImpl.WantRegistry.TrackPath | mistlib-core/src/storage/protocol.rs:326-334 | the path is added to exactly the numbered registration; true exactly when it was not there |
| WantRegistryImpl.WantRegistry.UntrackPath | mistlib-core/src/storage/protocol.rs:338-349 | the path leaves exactly the numbered registration; then the registry is pruned |
| WantRegistryImpl.WantRegistry.FulfillData | mistlib-core/src/storage/protocol.rs:390-408 | a whole block is one registry step: observed, limited, judged, and delivered or rejected |
| WantRegistryImpl.WantRegistry.FulfillChunkData | mistlib-core/src/storage/protocol.rs:464-558 | a chunk is one registry step: header, authorisation, contradictory total, duplicate, byte limits, the four resource limits, storing, completion |
| WantRegistryImpl.WantRegistry.ResetPath | mistlib-core/src/storage/protocol.rs:637-660 | a path reset is one registry step: prune, drop the assemblies on the path, count the reset on the registrations using it |
| WantRegistryImpl.WantRegistry.CancelClosed | mistlib-core/src/storage/protocol.rs:561-576 | abandoned registrations leave and nothing else does |
| WantRegistryImpl.WantRegistry.Cancel | mistlib-core/src/storage/protocol.rs:670-680 | every registration and assembly of the CID goes; then the registry is pruned |
| RegistryInvariant.StepInv | mistlib-core/src/storage/protocol.rs:277-324 | every operation, and a receiver closing, keeps the registry invariant |
| RegistryInvariant.RegistryInvariant | mistlib-core/src/storage/protocol.rs:464-558 | after every run: at most 1024 registrations, 256 assemblies, 64 MiB in all and 8 MiB each; byte and chunk counts are the real ones; no stored assembly is complete; each has a registration asking for it; numbers are distinct and nobody is sent data twice |
| RegistryInvariant.UpdateChunk | mistlib-core/src/storage/protocol.rs:537-541 | storing a chunk in a free place adds its length to the bytes and one to the count |
| RegistryInvariant.EnforceAllows | mistlib-core/src/storage/protocol.rs:159-181 | after limits are enforced no waiting registration on the path has a limit below the size |
| RegistryProperties.OneOutcome | mistlib-core/src/storage/protocol.rs:390-408 | every data frame raises exactly one of the accepted, duplicate and rejected counters; no other operation raises any |
| RegistryProperties.OutcomesBalance | mistlib-core/src/storage/protocol.rs:464-558 | over a run the three counters together grow by the number of data frames |
| RegistryProperties.NonInterference | mistlib-core/src/storage/protocol.rs:464-558 | a data frame leaves every open registration that did not ask for its path pending with the same peers, paths and limit, unsent, and every assembly such a registration waits for unchanged |
| RegistryProperties.PruneKeepsAccepted | mistlib-core/src/storage/protocol.rs:93-118 | after pruning an assembly remains exactly when it was there and an open registration asks for it |
| RegistryProperties.ResetExact | mistlib-core/src/storage/protocol.rs:637-660 | a reset keeps every open registration, counts on exactly those using the path, and drops exactly the matching assemblies among the live ones |
| RegistryProperties.BoundedAttempt | mistlib-core/src/storage/protocol.rs:257-275 | between registering and installing the limit nothing can reach the attempt, and whatever reaches it later is within the limit, whoever started the assembly |
| RegistryProperties.NothingSent | mistlib-core/src/storage/protocol.rs:277-324 | an attempt without paths is sent nothing |
| RegistryProperties.LimitRespected | mistlib-core/src/storage/protocol.rs:159-181 | a registration with an installed limit has been sent nothing longer |
| RegistryFates.OneOutcomeEach | mistlib-core/src/storage/protocol.rs:159-204 | in every run no attempt is sent two payloads, told of an excess twice, or both, and none of these while it waits |
| RegistryHistory.NoticeExactly | mistlib-core/src/storage/protocol.rs:159-181 | a notice is sent exactly when a data frame, for a chunk together with its assembly, exceeds the limit of an open registration on its path; it goes to that registration and says how many bytes there were |
| RegistryHistory.NoticeHistory | mistlib-core/src/storage/protocol.rs:159-181 | over every run the notices are exactly those that some frame caused |
| RegistryHistory.OverrunLeaves | mistlib-core/src/storage/protocol.rs:159-181 | the registration a frame exceeds is told and leaves, without a payload |
| RegistryHistory.EventReflects | mistlib-core/src/storage/protocol.rs:93-204 | what one event makes of a registration that still waits: limit, paths, the counts of frames and resets, and nothing else |
| RegistryHistory.RunReflects | mistlib-core/src/storage/protocol.rs:93-349 | in every run a registration that still waits is what the events so far have made of it |
| RegistryHistory.ResetsCounted | mistlib-core/src/storage/protocol.rs:640-660 | it has counted exactly the resets of a room it uses, by anyone or by a sender it asked |
| RegistryHistory.OneFate | mistlib-core/src/storage/protocol.rs:93-204 | an open registration survives an event, or is served, or is told of an excess, exactly one of these; cancelling its CID ends it without a word |
| RegistryHistory.HaveOutcome | mistlib-core/src/storage/protocol.rs:390-408 | a block is accepted exactly if it has at most 8 MiB and somebody open who asked for the path takes that much |
| RegistryHistory.ChunkOutcomes | mistlib-core/src/storage/protocol.rs:445-558 | a chunk is a duplicate exactly if its path was asked for and it is there; it is accepted exactly if it counts, fits into its block and the registry, and somebody takes that much |
| RegistryHistory.TelemetryExactly | mistlib-core/src/storage/protocol.rs:384-558 | bytes are counted with the frames they come in, and a completion exactly when payloads are sent |
| RegistryHistory.RegisteredExactly | mistlib-core/src/storage/protocol.rs:277-324 | a registration is admitted exactly under the bounds on CID, peers and open registrations; it starts without a limit, and without paths unless it is local; open ones go on |
| Frames.ClassifyBuilt | mistlib-core/src/storage/protocol.rs:835-860 | classifying what a builder prints gives the frame back, for every valid CID and header in range |
| Frames.BuildClassified | mistlib-core/src/storage/protocol.rs:779-826 | bytes that classify are exactly what the builder prints for the frame they classify as |
| Frames.WireFormat | mistlib-core/src/storage/protocol.rs:836-903 | the bytes on the wire: tag, length of the CID in front of data, numbers high byte first |
| Frames.ChunkSizeForLimit | mistlib-core/src/storage/protocol.rs:921-939 | the chunk size lies between 1 KiB and 16 KiB under any limit |
| Frames.ChunkSizeExactly | mistlib-core/src/storage/protocol.rs:921-938 | a usable limit gives the largest size up to 16 KiB that fits with header, CID and margin; otherwise it is 16 KiB |
| Frames.LayoutFits | mistlib-core/src/storage/protocol.rs:943-951 | every block up to 8 MiB needs at most 8192 chunks under any negotiated limit |
| Frames.LimitRespected | mistlib-core/src/storage/protocol.rs:921-971 | with a usable limit no payload exceeds it once header, CID and envelope margin are added |
| Transfer.Reassembled | mistlib-core/src/storage/protocol.rs:545-556 | chunks in index order joined together are the block |
| Transfer.StepFaithful | mistlib-core/src/storage/protocol.rs:464-558 | an operation keeps the path faithful to the block if its data frames come from the layout; a reset or cancel frees the path for another layout |
| Transfer.TransferDelivers | mistlib-core/src/storage/protocol.rs:464-558 | whatever a path delivers is the original block, in every run in which its frames come from the responder layouts, with any order, repetition, resets and traffic on other paths; the layouts may change wherever the path holds no assembly |
| TransferCompletion.ChunkProgress | mistlib-core/src/storage/protocol.rs:464-558 | a layout frame is stored, or completes the block for the waiting attempt, and what was stored stays |
| TransferCompletion.WholeCompletes | mistlib-core/src/storage/protocol.rs:390-408 | a whole block reaches the waiting attempt |
| TransferRuns.OtherKeepsAssembly | mistlib-core/src/storage/protocol.rs:93-118 | whatever happens on other paths, a path that somebody waits for before and after keeps its assembly |
| TransferRuns.TransferCompletes | mistlib-core/src/storage/protocol.rs:464-558 | once every frame of a layout has arrived, in any order, with any repetition and between any other operations, the waiting attempt has been sent exactly the block, as long as it stays open and its room free |
| TransferLayouts.MixedLayoutsCorrupt | mistlib-core/src/storage/protocol.rs:482-490 | on a path without an assembly, frames of any two chunk sizes with equally many chunks can be delivered together as a shorter block |
| TransferLayouts.MixingSafeExactly | mistlib-core/src/storage/protocol.rs:464-558 | several layouts of a block may be mixed freely on a path exactly when no two of them have equally many chunks: then every run delivers the block, otherwise some run from a new registry does not |
| TransferLayouts.MixedExample | mistlib-core/src/storage/protocol.rs:464-558 | an instance: 2000 bytes in chunks of 1024 and of 1025 |
| EndToEnd.ArrivalIsFrame | mistlib-core/src/storage/responder.rs:106-114 | what the responder writes is the layout the registry is proved against |
| EndToEnd.SentBlockArrives | mistlib-core/src/storage/responder.rs:94-169 | the frames of a fully sent block, arriving in any order, with any repetition and between any other operations, give the waiting attempt the block, as long as it stays open and its room free |
| Responder.SendBlock | mistlib-core/src/storage/responder.rs:94-169 | for every sequence of transport outcomes: the block is sent exactly if the transport accepts all of its frames before it fails and before it loses its route a 26th time; the accepted frames are the frames of the block in order without repeats; it stops at the first outcome that ends it, and has slept 200 ms per retry; bytes are counted per accepted frame |
| Responder.FramesCarryBlock | mistlib-core/src/storage/protocol.rs:956-971 | the frames of a block, in order, each classify as the chunk they are, and together carry exactly the block |
| Responder.SubmittedWhole | mistlib-core/src/storage/responder.rs:152-165 | the bytes counted for a fully sent block are its length exactly when the chunks cover it |
| Responder.SubmittedLayout | mistlib-core/src/storage/responder.rs:152-165 | with the chunk count callers compute they always are |
| Responder.WantQueue.Enqueue | mistlib-core/src/storage/responder.rs:36-50 | a job starts while fewer than four run, waits while fewer than 64 wait, and is dropped otherwise |
| Responder.WantQueue.Next | mistlib-core/src/storage/responder.rs:54-64 | a worker takes the oldest waiting job, or ends, and the last one takes the entry with it |
| Responder.Admissions | mistlib-core/src/storage/responder.rs:35-65 | in every run with one request for work per finished job: at most four workers and 64 waiting jobs, waiting only behind four workers, an entry exactly while somebody works, jobs started once each in the order accepted |
| Responder.WantExactly | mistlib-core/src/storage/responder.rs:35-65 | a want starts at once while fewer than four run, waits while fewer than 64 wait, and is dropped otherwise, in every state of every run |
| Responder.FinishExactly | mistlib-core/src/storage/responder.rs:35-65 | a worker that is done goes on with the job that has waited longest, or ends if none does |
| Responder.OtherPeers | mistlib-core/src/storage/responder.rs:35-65 | peers do not affect each other |
| Responder.WorkDrains | mistlib-core/src/storage/responder.rs:54-64 | without new requests every accepted job is started and the entry disappears |
| Base32.EncodeLower | mistlib-core/src/storage/cid.rs:15-35 | the loop over a 64-bit accumulator prints the encoding of the unbounded bit string (alphabet of section 6 of RFC 4648, lower case, unpadded) |
| Base32.DecodeLower | mistlib-core/src/storage/cid.rs:58-73 | the loop over a 32-bit accumulator decodes texts of any length |
| Base32.DecodeEncode | mistlib-core/src/storage/cid.rs:58-77 | decoding inverts encoding for every byte string |
| Base32.EncodeInjective | mistlib-core/src/storage/cid.rs:74-77 | distinct byte strings have distinct encodings |
| Base32.EncodeExample | mistlib-core/src/storage/cid.rs:14-36 | an example of section 10 of RFC 4648, in lower case |
| Cid.VarintRoundTrip | mistlib-core/src/storage/cid.rs:10-13 | every 64-bit value survives encoding and decoding, whatever follows it |
| Cid.VarintPrefixFree | mistlib-core/src/storage/cid.rs:10-13 | no varint is a proper beginning of another |
| Cid.VarintCanonical | mistlib-core/src/storage/cid.rs:78-81 | a decoded varint is spelled the canonical way exactly when its tenth byte has no bits to lose |
| Cid.EnvelopeRoundTrip | mistlib-core/src/storage/cid.rs:37-46 | the envelope of any 64-bit codec and any 32-byte digest parses back, in 36 to 45 bytes |
| Cid.ComputedCid | mistlib-core/src/storage/cid.rs:37-87 | for all data and every 64-bit codec, the computed CID is valid and names that codec |
| Cid.CidFormat | mistlib-core/src/storage/cid.rs:37-46 | the CIDs of raw blocks and of manifests have 59 characters and start with bafkrei and bafyrei |
| Cid.ValidExactly | mistlib-core/src/storage/cid.rs:108-120 | a CID has 2 to 128 characters, a b and then letters of the alphabet |
| Cid.CidRoundTrip | mistlib-core/src/storage/cid.rs:37-87 | codec and digest survive the trip through the text |
| Cid.CidInjective | mistlib-core/src/storage/cid.rs:48-50 | equal CIDs have equal codecs and equal digests |
| Cid.AcceptedTexts | mistlib-core/src/storage/cid.rs:54-87 | a string names an envelope exactly when it is the canonical text of bytes that parse as it, within the length bound |
| Cid.CanonicalCid | mistlib-core/src/storage/cid.rs:74-86 | an accepted string is the one printed for its codec and digest exactly when no header field has a cut tenth byte |
| Cid.CutHeaderExample | mistlib-core/src/storage/cid.rs:78-86 | such a string exists: it is accepted with codec 0 and is not the one printed for it |
| Cid.PrintCid | mistlib-core/src/storage/cid.rs:37-46 | prints the CID of a codec and digest |
| Cid.ReadCodec | mistlib-core/src/storage/cid.rs:54-87 | the codec of a CID, or none for every other string |
| LaneQueue.LaneDeque.PushBack | mistlib-core/src/transport/send.rs:262-264 | a frame joins at the back |
| LaneQueue.LaneDeque.PositionOfOrdered | mistlib-core/src/transport/send.rs:284-286 | the first frame that must keep its order |
| LaneQueue.LaneDeque.PopNext | mistlib-core/src/transport/send.rs:271-309 | the next frame and its writer, with the burst count, for every combination of flags and free writers |
| LaneQueue.PopRefines | mistlib-core/src/transport/send.rs:271-309 | a pop takes the head of the one of the two queues it names, whose writer is free, and leaves the other alone; without a result nothing changes |
| LaneQueue.PopTotal | mistlib-core/src/transport/send.rs:271-309 | with both writers free only an empty queue yields nothing |
| LaneQueue.PopExactly | mistlib-core/src/transport/send.rs:271-309 | the head of the ordered frames goes exactly when its writer is free, it may go, and no waiting frame whose writer is free has been passed sixteen times; otherwise an independent front frame goes if its writer is free; otherwise nothing |
| LaneQueue.SixteenThenOne | mistlib-core/src/transport/send.rs:281-298 | with a fresh burst sixteen ordered frames pass the frame at the front, in order, and then it goes |
| LaneQueue.BurstIsStreak | mistlib-core/src/transport/send.rs:281-303 | the burst is the number of pops in a row that count against a waiting frame |
| LaneQueue.LanesAreFifo | mistlib-core/src/transport/send.rs:248-310 | over every run each lane is first in, first out: nothing lost, repeated or reordered |
| LaneQueue.BoundedOvertaking | mistlib-core/src/transport/send.rs:281-301 | at most 16 ordered frames pass a waiting independent front frame on pops at which its writer was free |
| SendQueueEngine.SendEngine.SendQueue | mistlib-core/src/engine/action.rs:316-365 | a new lease on the open queue of the current generation; a stale queue is taken out of the map and woken, idle ones are pruned |
| SendQueueEngine.MapExactly | mistlib-core/src/engine/action.rs:316-365 | taking a lease keeps the queues of other peers that run or are reserved and drops the idle ones, keeps the queue of this peer if it is of the generation and in use, and enters a new one otherwise; no queue loses a frame or is closed |
| SendQueueEngine.SendEngine.AdmitToQueue | mistlib-core/src/engine/action.rs:383-408 | a frame joins unless the queue is closed; a worker is started exactly when there is none |
| SendQueueEngine.SendEngine.DropLease | mistlib-core/src/engine/action.rs:48-54 | the reservation count goes down and was above zero |
| SendQueueEngine.SendEngine.WorkerCheck | mistlib-core/src/engine/action.rs:414-422 | the worker leaves exactly when closed, or empty with nothing in flight and no lease; then the entry goes if it is this queue |
| SendQueueEngine.SendEngine.WorkerPop | mistlib-core/src/engine/action.rs:423-451 | frames are started until the scheduler has none for the free writers; then the worker waits |
| SendQueueEngine.SendEngine.CloseSendQueues | mistlib-core/src/engine/action.rs:470-480 | every queue in the map is closed, emptied and woken, and the map is empty |
| SendQueueInvariant.StepInv | mistlib-core/src/engine/action.rs:383-468 | every interleaved step keeps the scheduler invariant |
| SendQueueInvariant.SchedulerInvariant | mistlib-core/src/engine/action.rs:316-468 | in every state of every interleaving: reservation counts are the live leases, one worker per queue, busy flags tell what is in flight, no wake-up is lost, each lane is started in order |
| SendQueueInvariant.ExitInv | mistlib-core/src/engine/action.rs:416-421 | a worker that leaves puts its queue out of reach and leaves no worker behind |
| SendQueueInvariant.WritingOk | mistlib-core/src/engine/action.rs:424-427 | a started write takes a writer that was free |
| SendQueueProperties.ExactlyOneWorker | mistlib-core/src/engine/action.rs:392-409 | an open queue with frames has exactly one live worker, in every interleaving |
| SendQueueProperties.AtMostOneWriteEach | mistlib-core/src/engine/action.rs:411-427 | at most one ordered and one independent write are in flight per queue |
| SendQueueProperties.StartsInOrder | mistlib-core/src/engine/action.rs:424-427 | each lane of a queue starts frames in the order they were admitted, also when it is closed under way |
| SendQueueProperties.ExitsUnreachable | mistlib-core/src/engine/action.rs:414-422 | in every interleaving a worker leaves only a closed queue, or an empty one that no entry of the map and no undropped lease refers to |
| SendQueueProperties.ExitIsFinal | mistlib-core/src/engine/action.rs:414-422 | after its worker has left, a queue never admits or starts a frame again |
| SendQueueProperties.WakeMove | mistlib-core/src/engine/action.rs:453-464 | a worker waiting with nothing in flight while frames wait has been woken or is about to be |
| SendQueueProperties.NextMove | mistlib-core/src/engine/action.rs:383-468 | while an open queue has frames, its worker or a thread already under way can take a step |
| SendQueueProperties.WorkIsBounded | mistlib-core/src/engine/action.rs:383-468 | left alone, a queue and its worker take at most a number of steps computed from its state |
| SendQueueProperties.RestIsEmpty | mistlib-core/src/engine/action.rs:383-468 | where no such step is left, every frame an open queue admitted has been started |
| SendQueueProperties.NoStrandedFrame | mistlib-core/src/engine/action.rs:316-468 | from every reachable state, without outside help and within that many steps, every frame an open queue admitted is started |
| SeqCounters.Sequencer.WithNextSeq | mistlib-core/src/overlay/router.rs:68-96 | success consumes the next number and, at 1024 destinations, evicts a least recently used one; failure changes nothing |
| SeqCounters.Sequencer.FindOldest | mistlib-core/src/overlay/router.rs:81-87 | a counter none is older than |
| SeqCounters.CommittedSize | mistlib-core/src/overlay/router.rs:79-93 | a draw never leaves more than 1024 counters |
| SeqCounters.CountersBounded | mistlib-core/src/overlay/router.rs:68-96 | in every run at most 1024 destinations have a counter |
| SeqCounters.OrderedSubmission | mistlib-core/src/overlay/router/send.rs:64-119 | sequenced frames of one destination start on one queue in strictly increasing order within and across epochs, and never on the independent writer |
| SeqCounters.NumbersStartAtOne | mistlib-core/src/overlay/router.rs:79-93 | the numbers of a destination are 1, 2, 3 and so on in every epoch: failed attempts use up none |
| SeqCounters.EvictsLeastRecent | mistlib-core/src/overlay/router.rs:68-96 | in every run whose clock does not step back a counter goes only for a new destination when 1024 have one, and none has been drawn for longer ago, except at the same instant |
| SeqCounters.OneLeaves | mistlib-core/src/overlay/router.rs:81-89 | at most one counter goes at a time |
| SeqCounters.DrawnExactly | mistlib-core/src/overlay/router/send.rs:109-117 | a number is drawn exactly for an admitted reliable ordered unicast frame, unless unsequenced Bulk is on and it is Bulk |
| SeqCounters.IndependentExactly | mistlib-core/src/overlay/router/send.rs:77-117 | a frame is for the independent writer exactly if asked to be unordered, or unnumbered Bulk with the bulk channel on |
| ByteBudget.BudgetShared.Acquire | mistlib-core/src/transport/send.rs:147-169 | grants exactly when open and the bytes fit, or a received frame above the limit finds the budget unused |
| ByteBudget.BudgetShared.SetLimit | mistlib-core/src/transport/send.rs:125-128 | the limit changes up to the ceiling; outstanding permits stay charged |
| ByteBudget.BudgetShared.Reserve | mistlib-core/src/transport/send.rs:138-146 | a local request above the ceiling is refused; a received one is cut to the ceiling; others join the line |
| ByteBudget.BudgetShared.Attempt | mistlib-core/src/transport/send.rs:170-190 | the head of the line leaves it with a grant or an error, or waits |
| ByteBudget.BudgetShared.TryReserve | mistlib-core/src/transport/send.rs:200-204 | succeeds exactly when nobody is in line and the bytes fit |
| ByteBudget.BudgetShared.ShrinkTo | mistlib-core/src/transport/send.rs:98-103 | gives back exactly the difference |
| ByteBudget.BudgetShared.DropPermit | mistlib-core/src/transport/send.rs:105-109 | gives back the whole permit |
| ByteBudget.BudgetInvariant | mistlib-core/src/transport/send.rs:79-210 | in every run the bytes in use are those of the live permits and stay under the ceiling |
| ByteBudget.GrantWithinLimit | mistlib-core/src/transport/send.rs:156-166 | a grant stays within the current limit, except for a received frame above it, which is then alone |
| ByteBudget.GrantExactly | mistlib-core/src/transport/send.rs:125-169 | after every run the head of the line is granted exactly if the budget is open and the live permits leave room for it under the last limit set, or it is received, larger than that, and nothing is charged |
| ByteBudget.TryExactly | mistlib-core/src/transport/send.rs:200-204 | a reservation that does not wait is granted under the same condition, if nobody is in line |
| ByteBudget.GivesBack | mistlib-core/src/transport/send.rs:97-106 | shrinking and dropping a permit give back exactly the difference |
| ByteBudget.DebtNeverGrows | mistlib-core/src/transport/send.rs:79-81 | a budget in debt grants nothing until permits are released or the limit is raised |
| ByteBudget.IdleGrants | mistlib-core/src/transport/send.rs:156-166 | with no live permit the head is granted exactly when it is received or within the limit |
| ByteBudget.ReceivedNeverStranded | mistlib-core/src/transport/send.rs:156-166 | once the live permits are released a received frame at the head is granted |
| ByteBudget.LineIsFifo | mistlib-core/src/transport/send.rs:170-190 | reservations are answered in the order they joined the line, each once: what is answered, and then what still waits, is what joined without what was cancelled |
| BlockCache.StorageManager.TrackBlock | mistlib-core/src/storage/types.rs:107-130 | a known block is restamped, keeping its size and, without a new one, its position; a new one is added to index and usage |
| BlockCache.StorageManager.Touch | mistlib-core/src/storage/types.rs:132-139 | a known block becomes the latest; an unknown one changes nothing |
| BlockCache.StorageManager.UntrackBlock | mistlib-core/src/storage/types.rs:141-149 | the block leaves metadata, index and usage; its size is returned |
| BlockCache.StorageManager.EvictionCandidates | mistlib-core/src/storage/types.rs:151-176 | the shortest sufficient oldest-first run of unpinned blocks, or all of them; nothing within the capacity |
| BlockCache.StorageManager.SpatialEvictionCandidates | mistlib-core/src/storage/types.rs:188-243 | the shortest run of unpinned blocks in order of effective age that frees down to 95 per cent, or all of them |
| BlockCache.StorageManager.MinDistance | mistlib-core/src/storage/types.rs:80-85 | the fold over the own positions |
| BlockCache.NearestIsLeast | mistlib-core/src/storage/types.rs:80-85 | that fold is no more than any distance, and is one of them unless all are beyond the largest float |
| BlockCache.StorageManager.DecayCandidates | mistlib-core/src/storage/types.rs:252-285 | exactly the unpinned tagged blocks beyond the radius that lose the roll, each once |
| BlockRanking.DecaysExactly | mistlib-core/src/storage/types.rs:252-285 | the probability of decay grows from none at the radius to the maximum at four times the radius |
| BlockCache.UntrackedInv | mistlib-core/src/storage/types.rs:141-149 | taking a block out subtracts exactly its size: the saturation never bites |
| BlockCache.AccountingInvariant | mistlib-core/src/storage/types.rs:107-149 | in every run the index is the exact inverse of the timestamps and the usage the exact sum of sizes |
| BlockCache.LruVictimsUnique | mistlib-core/src/storage/types.rs:151-176 | there is one right list of least recently used victims |
| BlockCache.LruSpares | mistlib-core/src/storage/types.rs:151-176 | by age a block that is not pinned is spared exactly when it fits into the capacity together with what is pinned or no older than it |
| BlockCache.RunExtends | mistlib-core/src/storage/types.rs:151-243 | a run that must free more begins with the run that must free less |
| BlockCache.SpatialExtendsLru | mistlib-core/src/storage/types.rs:188-243 | with no tagged block to evict, the spatial victims begin with the least recently used ones and go on in the same order |
| BlockRanking.VictimsLongestUnused | mistlib-core/src/storage/types.rs:107-176 | in every run the least recently used victims were each used longer ago than every unpinned block that is spared |
| BlockRanking.RunRemembers | mistlib-core/src/storage/types.rs:107-149 | in every run the tracked blocks are in the order of their last use, with the lengths first given and the positions last given |
| BlockRanking.ExchangeRate | mistlib-core/src/storage/types.rs:207-220 | the exchange rate of age and distance: b goes before a exactly when its age times the sum of squared radius and squared distance is no less |
| BlockRanking.NoRadius | mistlib-core/src/storage/types.rs:66-78 | without a radius whatever is away goes before whatever is not, and age decides only between those |
| BlockRanking.HeavierFirst | mistlib-core/src/storage/types.rs:207-240 | in every spatial victim list a block comes after all that weigh more |
| BlockRanking.OlderAndFartherFirst | mistlib-core/src/storage/types.rs:207-240 | of two blocks one of which is no younger and no nearer, and strictly one of the two, that one goes first |
| BlockRanking.SpatialTarget | mistlib-core/src/storage/types.rs:188-243 | spatial eviction goes down to 95 per cent of the capacity if unpinned blocks allow, and no further than its last victim takes it |
| BlockCache.EvictionSuffices | mistlib-core/src/storage/engine.rs:341-364 | after a whole eviction usage is within capacity or only pinned blocks remain, and no pinned block is gone |
| StorageModel.StepAccounted | mistlib-core/src/storage/engine.rs:310-418 | every step keeps the accounting |
| StorageModel.StepSound | mistlib-core/src/storage/engine.rs:584-611 | every step keeps stored blocks matching their CIDs |
| StorageModel.RunSound | mistlib-core/src/storage/engine.rs:584-611 | in every run, if the blocks stored at the start match their CIDs, so do all blocks stored later |
| StorageModel.RunPinsOk | mistlib-core/src/storage/engine.rs:430-532 | in runs whose metadata writes succeed, what memory protects is what the saved registry lists, or nothing before the first load |
| StorageModel.StepCovered | mistlib-core/src/storage/engine.rs:447-488 | what the saved registry promises stays protected in memory, or unread, exactly when a failed pin leaves everything it lists protected; no other step can break it |
| StorageModel.StepKeepsProtected | mistlib-core/src/storage/engine.rs:310-418 | no eviction and no sweep deletes a block the saved registry protects while that holds, on a fresh engine either |
| StorageModel.PinSafety | mistlib-core/src/storage/engine.rs:310-566 | in every run in which each failed pin meets that condition, with writes failing or not and through restarts, a stored block that stays protected stays stored |
| StorageModel.OrderlyPinSafety | mistlib-core/src/storage/engine.rs:430-489 | the condition as a caller sees it: no pin fails to be saved after a failed unpin, without a successful save or a restart between; a root pinned again lists the same blocks |
| StorageModel.FreshEngineSafe | mistlib-core/src/storage/engine.rs:543-566 | a new engine over whatever was stored and saved before starts safe |
| StorageModel.UnpinKeepsShared | mistlib-core/src/storage/pin.rs:77-88 | after an unpin exactly what the other roots list is protected: a shared chunk until its last root goes |
| StorageModel.RootStaysSaved | mistlib-core/src/storage/pin.rs:71-79 | only unpinning a root, or pinning it again, changes what it protects |
| StorageModel.FailedPinProtects | mistlib-core/src/storage/engine.rs:447-457 | a pin, saved or not, protects its blocks in the running process through every later step, until the root is unpinned, pinned without the block, or lost to a restart |
| StorageModel.FailedPinIsNotSaved | mistlib-core/src/storage/engine.rs:436-457 | after a pin whose save failed the root counts as pinned, the saved registry is as it was, and a restart protects no more than that |
| StorageModel.FailedSavesUnprotect | mistlib-core/src/storage/engine.rs:465-489 | a real run in which an unpin and then a pin fail to be saved and a block of one byte goes that the saved registry still lists |
| StorageModel.EnforcementSuffices | mistlib-core/src/storage/engine.rs:310-364 | a complete enforcement ends within the capacity or with only pinned blocks tracked |
| StorageModel.DecayExactly | mistlib-core/src/storage/engine.rs:371-418 | a sweep takes a tracked block out of store and cache exactly if it decays and its deletion does not fail |
| StorageEngineImpl.StorageEngine.constructor | mistlib-core/src/storage/engine.rs:79-109 | a new engine has nothing tracked or loaded and keeps what is stored, whatever that is |
| StorageEngineImpl.StorageEngine.EnsurePinRegistryLoaded | mistlib-core/src/storage/engine.rs:543-566 | loads once; a failed read or an unreadable registry is an error and changes nothing |
| StorageEngineImpl.StorageEngine.EnforceCapacityLimit | mistlib-core/src/storage/engine.rs:310-364 | asks for the positions of the node once, and deletes the right victims for them in order: by age if there are none, by score otherwise; reads the registry only when over capacity and stops at a failed deletion; if the backend answers it fails only when over capacity with an unreadable registry |
| StorageEngineImpl.StorageEngine.RunDecaySweep | mistlib-core/src/storage/engine.rs:371-418 | asks for the positions of the node once, deletes exactly the sweep victims for them, the configured radius, probability and roll, except those whose deletion fails, and counts them; none fails if the backend answers |
| StorageEngineImpl.StorageEngine.ResolveOrFetch | mistlib-core/src/storage/engine.rs:584-611 | a stored block comes back as it is and becomes the latest; otherwise the answer of the peers at that moment, if it hashes to the CID, is tracked with the position of the node, the capacity enforced, and the answer stored; if the backend answers it succeeds exactly if the block is stored, or answered while the capacity can be checked; a block that is neither changes nothing |
| StorageEngineImpl.StorageEngine.AddAtInner | mistlib-core/src/storage/engine.rs:155-234 | if the backend answers and the registry is readable or not needed, it succeeds; then the root and chunk CIDs of the data are returned, each chunk and the manifest have been written once, with the position given or else that of the node, the capacity is enforced after each with the positions of that moment, and what is left of the file is as FiledLeaves says |
| StorageEngineImpl.StorageEngine.Get | mistlib-core/src/storage/engine.rs:236-308 | on success the result is the concatenation, in manifest order, of one part per chunk, each from the store as it was or from a peer and matching its CID, whatever order they arrived in; if the backend answers it succeeds when the manifest is stored or answered and, by one of four plans, each block to get stays obtainable until its turn: all are stored; or what is missing fits; or by age those that no peer has last; or each is pinned, untracked or with peers, whatever is evicted meanwhile |
| StorageEngineImpl.StorageEngine.Drain | mistlib-core/src/storage/engine.rs:266-272 | parts that came early follow as soon as those before them are there |
| StorageEngineImpl.StorageEngine.Pin | mistlib-core/src/storage/engine.rs:430-458 | success means the root counts as pinned here; a root that counted already is not saved again, a new one is, with the chunks of the manifest that is stored under it or that a peer answers with; so the saved registry lists the root exactly if it was new here or listed before; if the backend answers and the registry is readable it succeeds exactly if the root counts as pinned or there is such a manifest |
| StorageEngineImpl.StorageEngine.Unpin | mistlib-core/src/storage/engine.rs:465-489 | on success the saved registry is without the root and memory protects what it lists; on failure memory goes on protecting |
| StorageEngineImpl.StorageEngine.AddPinned | mistlib-core/src/storage/engine.rs:513-532 | on success every chunk and the manifest have been written, and the saved registry lists them under the root; which of them are still stored is the exact condition of FiledLeaves, as capacity is enforced before the pin |
| FileBlocks.ChunksJoin | mistlib-core/src/storage/engine.rs:185-187 | the chunks of a file joined together are the file |
| FileBlocks.ChunkAt | mistlib-core/src/storage/engine.rs:185-187 | chunk number i is bytes i MiB to i + 1 MiB of the file |
| FileBlocks.ChunkCount | mistlib-core/src/storage/engine.rs:185-187 | there are as many chunks as started MiB |
| FileBlocks.ManifestSays | mistlib-core/src/storage/engine.rs:218-225 | a manifest gives the name and the length of the file, and the CID of each chunk in order |
| StorageFiling.RoomKeeps | mistlib-core/src/storage/engine.rs:185-234 | with room for the whole file an add evicts nothing |
| StorageFiling.StoredExactly | mistlib-core/src/storage/engine.rs:185-234 | the whole file is stored after an add only if it fits beside the pinned blocks; and if it does, it is, as long as victims are chosen by age; whether or not the saved registry had been read |
| StorageFiling.LostExactly | mistlib-core/src/storage/engine.rs:310-364 | adding a new block longer than the capacity, with victims by age, deletes a tracked block exactly when it is not pinned, as the registry read by then says |
| StorageFiling.BrokenGuardDeletes | mistlib-core/src/storage/engine.rs:447-457 | where a failed pin breaks the condition, the pin and then the add of any new block longer than the capacity delete a tracked block that the saved registry protects |
| StorageFetching.SecureStays | mistlib-core/src/storage/engine.rs:584-611 | a stored block that is pinned or not tracked stays so through the fetch of another block, whatever that evicts |
| StorageFetching.FetchKeepsExactly | mistlib-core/src/storage/engine.rs:584-611 | a fetch with victims by age leaves a stored, tracked block in the store exactly when it is pinned, or fits, with the new block, beside what is pinned or no older than it |
| StorageFetching.LostBeforeItsTurn | mistlib-core/src/storage/engine.rs:236-308 | that each block is stored or with peers is not enough for a get: where that condition fails, a fetch deletes a stored block that may be in no other place |
| StorageFetching.FetchProvides | mistlib-core/src/storage/engine.rs:584-611 | what is sure to be got by one of the plans stays so when one of the blocks is fetched |
| FetchOrders.AlwaysGotExactly | mistlib-core/src/storage/engine.rs:236-308 | on a node without a position, every order of getting a set of blocks comes to an end exactly if each is stored or with peers and, should anything have to be fetched, each one that no peer has is pinned, untracked, or fits beside what is pinned, what is no older than it, and all that is to be got |
| FetchOrders.StoredOrAnsweredIsNotEnough | mistlib-core/src/storage/engine.rs:236-308 | an instance in which it does not: room for one byte, one block of one byte stored and another one with peers |
| FetchOrders.AddedGotExactly | mistlib-core/src/storage/engine.rs:155-308 | a file that was just added can be got back in every order of its downloads exactly if it fits beside the pinned blocks, or each of its blocks is pinned or with peers |
| FetchOrders.LosslessObtainable | mistlib-core/src/storage/engine.rs:236-308 | where that condition holds, a get succeeds |
| FileBlocks.FiledLeaves | mistlib-core/src/storage/engine.rs:185-234 | the same for the chunks and manifest of a file as the engine writes them |
| FileBlocks.OneByteTooLong | mistlib-core/src/storage/engine.rs:513-532 | an instance that does not fit: one byte into a new engine without capacity |
| FileBlocks.MatchedBlock | mistlib-core/src/storage/cid.rs:48-50 | a block that matches a CID is the one it was computed from, unless two blocks involved share a hash |
| FileBlocks.AddGetRoundTrip | mistlib-core/src/storage/engine.rs:155-308 | what is retrieved for the root of a file is that file, for every byte string, arrival order and mix of local and peer blocks, unless two blocks that may be taken for parts of the file share a hash |
| StorageEngineImpl.StorageEngine.AddThenGet | mistlib-core/src/storage/engine.rs:155-308 | when the backend answers, adding and then getting returns exactly the data: from the store alone if the file fits; and whatever the add or the get evicts, if each block of the file is pinned or with peers; unless two blocks involved share a hash |
| BulkPacing.BulkPacer.NoteFrame | mistlib-core/src/transport/bulk_pacing.rs:64-67 | the largest frame only grows and the budget is clamped again |
| BulkPacing.BulkPacer.Observe | mistlib-core/src/transport/bulk_pacing.rs:75-151 | one observation: baseline, restart, idle rebaseline, too early, or a new rate and budget |
| BulkPacing.BulkLink.Submit | mistlib-core/src/transport/bulk_pacing.rs:171-180 | counts the bytes on their channel, and on the observed one in its buffer |
| BulkPacing.BulkLink.Observe | mistlib-core/src/transport/bulk_pacing.rs:181-191 | the observed channel and its buffer, and one observation with its submission count |
| BulkPacing.AdmittedFits | mistlib-core/src/transport/bulk_pacing.rs:192-196 | what is let through leaves the observed channel within its budget, or was alone on it |
| BulkPacing.ObservedInv | mistlib-core/src/transport/bulk_pacing.rs:75-151 | an observation keeps the budget bounds and the window; no subtraction goes below zero |
| BulkPacing.WindowBounded | mistlib-core/src/transport/bulk_pacing.rs:124-128 | forty sampling intervals fill the rate window |
| BulkPacing.PacingBounds | mistlib-core/src/transport/bulk_pacing.rs:49-151 | in every run the budget lies between its floor and 1 MiB and the window has at most 40 entries |
| BulkPacing.CountersNeverRollBack | mistlib-core/src/transport/bulk_pacing.rs:97-101 | on a link only a channel switch or a clock step backwards restarts the estimator |
| BulkPacing.EstimateSurvivesLull | mistlib-core/src/transport/bulk_pacing.rs:97-105 | through any run in which the channel is observed idle only, whatever is submitted meanwhile, the estimate and its window stay, and the budget only makes room for larger frames |
| BulkPacing.EmptyChannelAdmits | mistlib-core/src/transport/bulk_pacing.rs:192-196 | a channel observed empty takes a frame of any size |
| BulkPacing.TwoFramesFit | mistlib-core/src/transport/bulk_pacing.rs:49-57 | the floor leaves room for a second frame behind the largest one |
| BulkPacing.GrowthBounded | mistlib-core/src/transport/bulk_pacing.rs:134-148 | a budget above the estimate needs bytes released and an empty channel or a sustained full allowance, and is at most half as much again |
| BulkTargets.MeasuredWhen | mistlib-core/src/transport/bulk_pacing.rs:97-122 | exactly observations of one channel with frames waiting, at least 50 ms and on native links a round trip apart, change the rate |
| BulkTargets.RateExactly | mistlib-core/src/transport/bulk_pacing.rs:119-136 | a delivery is bytes drained over time elapsed; the rate is the first delivery or moves towards it on browser links, and the greatest of the last two seconds on native ones |
| BulkTargets.RateIsHistory | mistlib-core/src/transport/bulk_pacing.rs:97-136 | in every run the rate of a native link is the greatest delivery of the last two seconds measured, and that of a browser link lies between the least and the greatest delivery since it started over |
| BulkTargets.BudgetExactly | mistlib-core/src/transport/bulk_pacing.rs:135-149 | the delay target: without a probe the budget is the most bytes that drain at the estimated rate within the target, on native links with the round trip, between its floor and 1 MiB; a probe raises it by half if that is more |
| BulkTargets.FillsUnique | mistlib-core/src/transport/bulk_pacing.rs:135-149 | there is only one such budget |
| BulkTargets.StartsWith | mistlib-core/src/transport/bulk_pacing.rs:39-52 | a new estimator starts with 64 KiB, or its floor if that is more |
| BulkTargets.RunKnows | mistlib-core/src/transport/bulk_pacing.rs:171-191 | in every run the link has counted what was submitted on each channel, and knows what the observed channel holds: what it held then and what has been submitted since |
| BulkTargets.TripIsLeast | mistlib-core/src/transport/bulk_pacing.rs:70-74 | in every run the round trip the estimator works with is the least noted since it started over |
| BulkTargets.FrameIsLargest | mistlib-core/src/transport/bulk_pacing.rs:66-69 | in every run the largest frame is the largest bulk frame submitted, or the first value |
| BulkPacing.PeakIsMax | mistlib-core/src/transport/bulk_pacing.rs:129-132 | a native rate is the highest delivery in the window |

## Left out

- Async machinery: tokio tasks, wakers, timers and mutex poisoning; a lock-protected section is an atomic step and time is a number supplied to it.
- Transports, WebRTC, signaling, FFI, wasm bindings and file or OPFS backends: their results are choices of the model.
- SHA-256, CBOR and JSON: parameters. Hashes are 32 bytes; the round trip of a manifest through its codec, and the absence of collisions among the blocks involved, are hypotheses of the lemma that needs them.
- The varint library is not part of the repository: `Cid.VarintDecode` follows its published decoder (version 0.8), which rejects a trailing zero byte and more than ten bytes and drops the upper bits of a tenth byte.
- 64-bit wrap-around of attempt numbers, telemetry counters, sequence numbers and the cache clock: unbounded here. Accumulators, saturating casts and clamps whose width matters are modelled as written.
- Floating point: scores, rates and distances are reals with the same constants; the 95 per cent target is the exact quotient, and the smoothing factor of the rate is a parameter. A round-trip time that is not a finite number is not an input.
- Registry side tables: query paths, sender progress and activity watches, and peer notifiers. The list of peers of a registration is a set; its length and name bounds are checked before.
- A receiver that closes while a registry method holds the lock: closing is a step between methods.
- StorageEngineImpl.StorageEngine.Get: local blocks are not checked against their CIDs, so a part may be whatever the store held under its name; with the node's positions in play the plans are sufficient, not necessary.
- FetchOrders.AlwaysGotExactly: it ranges over all orders, as when no more blocks are wanted than downloads may be in flight; with a smaller window some of them cannot happen. Peers do not change their answers there, and a tracked block has the length they answer with.
- FileBlocks.FiledLeaves: the exact condition is for files where equal CIDs mean equal lengths; with the node's positions in play it is sufficient only with room for the whole file.
- Concurrent use of one storage engine: a method runs alone, a write takes effect when it completes, and each download runs to its end when it is its turn to arrive. Which write or download completes next is open.
- SendQueues: queues, leases and tasks are numbered values in maps; aliasing of one queue by several handles is the shared number. Wake-ups are a single stored permit, as for a notification with one waiter. Budgets, telemetry and the write itself are not part of this model.
- SendQueueEngine: the sections a worker runs without touching shared state (start, completion of a write, wake-up) are events of `SendQueues` only.
- SendQueueEngine.SendEngine.SendQueue: the method prunes in one go; the event also covers leases that drop behind the scan.
- ByteBudget: fairness of the waiting line is its order; a waiting future that is dropped is the cancel event.
- LaneQueue: the class of a frame is given with it; reading it from the wire envelope is not part of this model.
- SeqCounters: frames stamped by other nodes are admitted unstamped; the reorder buffer at the receiver is not part of this model.
- Deadlock freedom of frames that wait for budget inside a started write, and concurrent pin and unpin with failing metadata writes: not claimed, and the code gives less there.
- That tracked blocks are stored: not an invariant of the code, which tracks a fetched block before storing it.
- Routing table, topology, dedupe cache, envelope forwarding, reconnect backoff, configuration and logging: they would only add easy members.
