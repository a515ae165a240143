# Verification of NDN-RTC's media path

This Dafny project models how NDN-RTC moves live media and proves what its parts promise together. A producer
encodes packets as counted blobs, slices them into segments and names them. A consumer keeps a pipeline of
requests, assembles segments in pooled slots, queues finished frames by time and plays them on a clock that
corrects itself.

`dafny verify dfyconfig.toml` checks the whole project.

| file | part of the program |
|---|---|
| Bytes.dfy, NetworkData.dfy, VideoPacket.dfy, Slicing.dfy | byte vectors, the blob format, video packets, slicing and publishing |
| Commons.dfy | options, packet numbers, pipeline commands, division |
| BufferSlot.dfy, FrameBuffer.dfy, PlaybackQueue.dfy | slots, the pool and the two maps of the buffer, the playback queue |
| Consumer.dfy, LateRequests.dfy, Reservations.dfy, PipelineAccounting.dfy | whole runs of the consumer over those parts |
| ReadPacket.dfy, EndToEnd.dfy, Delivery.dfy | reading a frame from its slot; from publisher to player |
| Names.dfy, NameLevels.dfy | the name parser and printers; names that end early |
| Playout.dfy | the playout clock |
| InterestControl.dfy, Pipeliner.dfy, LatencyControl.dfy, PipelineControl.dfy | the request pipeline and its state machine |
| SegmentFetcher.dfy, Estimators.dfy, AudioBundle.dfy | metadata fetching, sliding averages, audio bundles |

Classes follow the source's mutable objects; their methods are proved equal to functions on values, and the
properties over whole runs are proved of those functions. In the frame buffer `Valid` ties the slot objects,
with the one place each is in, to a view of the buffer as a value. Methods that throw in the source say so in
their result.

Where the code is at odds with what it is documented to do, the model follows the code:

- The bound test of the packet parser lets a blob end one byte behind the data (`NetworkData.OvershootsExactly`), and a packet cut inside its header area shows another blob as its header (`Slicing.HeaderOfSegmentZero`).
- A sync list with an empty thread name is not read back, because empty blobs are dropped (`VideoPacket.SyncListRoundTrip`).
- A request for a reserved sample takes a second slot, and one of the two is lost (`FrameBuffer.LateRequestLosesASlot`). The pipeliner makes such a request itself when parity comes in front of data (`LateRequests.ParityFirstMakesALateRequest`).
- Popping a delta frame also drops what active slots of threads sorted before its own hold, key frames included (`FrameBuffer.OlderThanDelta`).
- Initialising the interest control can leave its limits out of order (`InterestControls.InitialiseCanBreakTheOrder`); with the limit below a marked lower one, withholding goes up instead of down (`InterestControls.WithholdOutOfOrder`).
- A slot that has only parity still counts as new, so the pipeline counter can go negative (`PipelineAccounting.ParityFirstCountsTwice`).
- The guard of the slot's header access never fires (`BufferSlots.BufferSlot.GetHeader`), and a frame whose time is queued already stays reserved for good (`Reservations.DeliverStrands`).
- A stream or thread called "ndnrtc" makes a name unreadable (`Names.LaterAppHidesTheName`).
- The prefix of a stream with its timestamp is not printed back, because the timestamp is printed only with a thread (`NameLevels.EveryLevelSurvives`).
- Nacks never reach a state (`PipelineControls.NacksAreIgnored`), the playback-driven machine can be asked for a state it does not have (`PipelineControls.ThrowsExactly`), and a nested restart leaves the state statistic behind and counts a rebuffering twice (`PipelineControls.StarvationStatistics`).
- `numSlices` of an empty packet is zero although `slice` makes one segment (`Slicing.SliceCount`).

## Model

| member | source | states |
|---|---|---|
| FrameBuffer.RunsConserveSlots | cpp/src/frame-buffer.cpp:561-622 | over any run of buffer operations, pool + active + reserved + reservations overwritten on the way is constant: a slot is lost exactly when a reserved sample is reserved again |
| FrameBuffer.RunsKeepOk | cpp/src/frame-buffer.cpp:519-810 | in every reachable state active slots carry the name they are filed under, reserved slots are locked, and all slots together fit the pool, so `push` never refuses one |
| FrameBuffer.LateRequestLosesASlot | cpp/src/frame-buffer.cpp:595-608 | the overwriting run exists: `requested` looks only among active slots, so requesting a reserved sample takes a second slot and reserving that one loses the first |
| FrameBuffer.StepConserves | cpp/src/frame-buffer.cpp:561-810 | one buffer operation keeps the number of slots, less one exactly if it overwrites a reservation |
| FrameBuffer.OlderThanDelta | cpp/src/frame-buffer.cpp:748-773 | what `invalidatePrevious` of a delta frame drops is exactly the older active delta frames of its thread, and no key frame, if and only if no active sample belongs to a thread sorted before it |
| FrameBuffer.NextOlder | cpp/src/frame-buffer.cpp:748-773 | dropping one more older sample is dropping the larger set at once, counters included, and there is room for its slot |
| FrameBuffer.AllOlderDropped | cpp/src/frame-buffer.cpp:748-773 | when nothing older is left active, exactly the set of older samples has been dropped |
| FrameBuffer.CountOne | cpp/src/frame-buffer.cpp:726-745 | the four drop counters add up slot by slot to the sizes of the sets of dropped, unfinished, key and unfinished key slots |
| FrameBuffer.Buffer.PlacesAreSeparate | cpp/src/frame-buffer.hpp:340-380 | a coherent buffer has no slot object in two places or twice in one |
| FrameBuffer.SlotPool.constructor | cpp/src/frame-buffer.cpp:519-525 | a pool of `capacity` distinct cleared slots |
| FrameBuffer.SlotPool.Pop | cpp/src/frame-buffer.cpp:527-537 | takes the slot at the back, null when there is none |
| FrameBuffer.SlotPool.Push | cpp/src/frame-buffer.cpp:539-550 | clears and takes in the slot, or refuses it uncleared when full |
| FrameBuffer.Buffer.constructor | cpp/src/frame-buffer.cpp:552-559 | an empty buffer over the pool |
| FrameBuffer.Buffer.RequestSample | cpp/src/frame-buffer.cpp:595-616 | one sample's Interests go to its active slot, or to one taken from the pool; the three outcomes and the exact new buffer |
| FrameBuffer.Buffer.Requested | cpp/src/frame-buffer.cpp:577-622 | Interests are grouped by sample in their order; each sample is served once, and serving stops at the first group that finds no slot or is refused; on success every sample asked for was served |
| FrameBuffer.GroupBySample | cpp/src/frame-buffer.cpp:580-593 | each group holds exactly the Interests of its sample, in their order |
| FrameBuffer.Buffer.Received | cpp/src/frame-buffer.cpp:627-681 | the segment goes to the active slot of its sample, with the slot and its old state in the receipt; a sample that is not active is the exception |
| FrameBuffer.Buffer.Invalidate | cpp/src/frame-buffer.cpp:726-745 | drops one active sample, counts it by class and completeness, and returns its slot |
| FrameBuffer.Buffer.InvalidatePrevious | cpp/src/frame-buffer.cpp:748-773 | drops exactly the active samples that come before the given one, whatever the order of iteration |
| FrameBuffer.Buffer.ReserveSlot | cpp/src/frame-buffer.cpp:783-796 | moves the very slot object from the active to the reserved map and locks it; a slot that is not ready is moved all the same before the lock throws |
| FrameBuffer.Buffer.ReleaseSlot | cpp/src/frame-buffer.cpp:798-810 | returns a reserved slot object, cleared, to the pool; nothing for an unknown name |
| FrameBuffer.Buffer.Reset | cpp/src/frame-buffer.cpp:561-574 | returns every active slot to the pool and leaves reserved ones |
| BufferSlots.AssemblyIsOrderIndependent | cpp/src/frame-buffer.cpp:172-197 | after any arrival sequence with repeats the slot is what a definition over the set of arrived segments says |
| BufferSlots.ReadyIff | cpp/src/frame-buffer.cpp:303-343 | ready exactly when some data segment arrived and 2*data + parity >= 2*announced, equivalently when the assembled level reached 1; new exactly while no data segment arrived |
| BufferSlots.ReadyIsKept | cpp/src/frame-buffer.cpp:303-343 | further arrivals in any order never take a slot out of ready |
| BufferSlots.FreshArrival | cpp/src/frame-buffer.cpp:303-343 | one new segment takes the state of a set of segments to the state of the larger set |
| BufferSlots.FreshSlot | cpp/src/frame-buffer.cpp:112-145 | a pool slot that took a batch is a slot in which nothing has arrived |
| BufferSlots.RequestAcceptsOneSample | cpp/src/frame-buffer.cpp:112-145 | a batch is refused exactly when the slot is ready or locked, an Interest names no segment, or samples differ |
| BufferSlots.AddInterestsInv | cpp/src/frame-buffer.cpp:112-145 | requests never change what has been fetched nor the state of a used slot; all accepted Interests end up requested |
| BufferSlots.RequestsAreCounted | cpp/src/frame-buffer.cpp:112-145 | an accepted batch counts each segment as often as it asks for it, and every Interest for a segment asked for before as a retransmission |
| BufferSlots.ReceiveInv | cpp/src/frame-buffer.cpp:172-197 | receiving keeps the slot invariant: fetched within requested, all of one sample, weights and flags in step with what was fetched |
| BufferSlots.MissingIsExact | cpp/src/frame-buffer.cpp:199-221 | nothing is missing if and only if every announced segment is requested; requesting what is reported missing, and nothing less, brings that about |
| BufferSlots.BufferSlot.SegmentsRequested | cpp/src/frame-buffer.cpp:112-145 | adds the Interests up to the first offending one, which is where the source throws |
| BufferSlots.BufferSlot.SegmentReceived | cpp/src/frame-buffer.cpp:172-197 | ignored when locked, refused when not requested, kept once; state and level are recomputed from all fetched segments |
| BufferSlots.BufferSlot.UpdateConsistencyState | cpp/src/frame-buffer.cpp:303-334 | the consistency flags, counts and state after one more segment |
| BufferSlots.BufferSlot.AssembledLevel | cpp/src/frame-buffer.cpp:336-343 | the sum of shares in any iteration order is the total weight over the announced segments |
| BufferSlots.BufferSlot.GetMissingSegments | cpp/src/frame-buffer.cpp:199-221 | lists exactly the announced segments not requested, each once, data in front of parity |
| BufferSlots.BufferSlot.ToggleLock | cpp/src/frame-buffer.cpp:345-356 | ready and locked swap; any other state is the exception and stays |
| BufferSlots.TogglesBack | cpp/src/frame-buffer.cpp:345-356 | exactly ready and locked slots can be toggled, and toggling twice changes nothing |
| BufferSlots.OriginalIsOfLast | cpp/src/frame-buffer.cpp:303-334 | whether the data is original is what the last new segment said; repeats, refused and ignored segments change nothing at all |
| BufferSlots.BufferSlot.GetHeader | cpp/src/frame-buffer.cpp:294-301 | the common header that came with segment 0; the guard in front never fires, the lookup fails instead |
| BufferSlots.BufferSlot.Clear | cpp/src/frame-buffer.cpp:147-170 | all fields back to those of a free slot |
| BufferSlots.ShareOfOne | cpp/src/network-data.cpp:269-279 | share and weight of data and parity segments agree with counting in halves |
| QueueTimes.InsertKeepsOrder | cpp/src/frame-buffer.hpp:434-451 | insertion keeps times strictly increasing, adds exactly the new time, and does nothing exactly when the time is there |
| QueueTimes.PlayTimesTelescope | cpp/src/frame-buffer.cpp:894-896 | play times of consecutive pops add up to the difference of timestamps, and none is negative |
| QueueTimes.PoppingAllTakesItsSize | cpp/src/frame-buffer.cpp:916-922 | popping everything takes exactly `size()`: last minus first plus one period |
| PlaybackQueues.PopOk | cpp/src/frame-buffer.cpp:882-913 | taking the first sample leaves a queue in order |
| PlaybackQueues.EnqueueOk | cpp/src/frame-buffer.cpp:982-1000 | inserting a reserved sample with a header keeps the queue in order |
| PlaybackQueues.NamesDistinct | cpp/src/frame-buffer.hpp:434-451 | distinct times make distinct samples |
| PlaybackQueues.PlaybackQueue.Size | cpp/src/frame-buffer.cpp:916-922 | the whole milliseconds between first and last sample plus the sample period |
| PlaybackQueues.PlaybackQueue.OnNewData | cpp/src/frame-buffer.cpp:982-1000 | a ready slot is reserved and queued by its time, and its sample rate becomes the queue's; without a header it is reserved and then the source throws; with a taken time it stays reserved only |
| PlaybackQueues.PlaybackQueue.Pop | cpp/src/frame-buffer.cpp:882-913 | hands out the first sample with its play time, drops what a delta frame makes obsolete, and frees the slot |
| PlaybackQueues.PlaybackQueue.SamplePeriod | cpp/src/frame-buffer.hpp:429 | the period times the rate is a second; no rate gives no period |
| Consumers.RunsKeepPlayback | cpp/src/frame-buffer.cpp:882-1000 | over runs without requests for reserved samples no slot is lost, queued samples are strictly increasing, reserved and locked, and every play time is non-negative |
| Consumers.PlaysInOrderOfPublishing | cpp/src/frame-buffer.cpp:861-913 | after any legal run queued samples are strictly increasing in the timestamps of the headers their segments 0 brought; a pop hands out the earliest with that timestamp, for the difference to the next one's, or one period if it is the last |
| Consumers.PopDropsExactly | cpp/src/frame-buffer.cpp:748-913 | a pop takes the popped sample out of queue and reservations; if it is a delta frame, exactly the active samples in front of it are dropped and counted by completeness and class; all else stays |
| Consumers.StepKeepsInv | cpp/src/frame-buffer.cpp:577-1000 | requests, arrivals, pops and resets keep buffer and queue in order together |
| Consumers.StepConservesSlots | cpp/src/frame-buffer.cpp:577-1000 | on such runs every step conserves the number of slots exactly |
| Consumers.InitInv | cpp/src/frame-buffer.cpp:552-559 | a consumer that was just set up is in order, so every run starts in order |
| LateRequests.LateArrivalExactly | cpp/src/pipeliner.cpp:205-224 | the pipeliner's request for missing segments comes after the queue reserved the slot if and only if the arrival is data segment 0 behind enough parity with an announced segment not requested, where parity segments agree on their number |
| LateRequests.FirstData | cpp/src/pipeliner.cpp:205-224 | when the first data segment makes a slot ready with segments missing, for any parity in front of it |
| LateRequests.TidyRunsAreLegal | cpp/src/pipeliner.cpp:205-224 | on runs in which no parity comes in front of all data and requests from outside are in time, no arrival makes a late request: what is proved of legal runs holds of them |
| LateRequests.ParityFirstMakesALateRequest | cpp/src/pipeliner.cpp:205-224 | such a late request exists: one data and two parity segments are requested, parity comes first, and the sample ends up reserved and new in a second slot |
| Reservations.ReservedOnceReleasedOnce | cpp/src/frame-buffer.cpp:783-810 | for every sample, on every run: reservations plus whether it was reserved at the start equal releases plus whether it is reserved at the end, so reserving and releasing one sample alternate |
| Reservations.StepReserves | cpp/src/frame-buffer.cpp:783-1000 | one event reserves a sample that was not reserved, releases one that was, or leaves the sample as it is |
| Reservations.PopReleases | cpp/src/frame-buffer.cpp:882-913 | one pop returns exactly one reserved slot, and the active ones it drops, to the pool |
| Reservations.DeliverStrands | cpp/src/frame-buffer.cpp:982-1000 | an arrival leaves its sample reserved but unqueued exactly when segment 0 is missing or the time is taken |
| Reservations.CleanRunsStrandNothing | cpp/src/frame-buffer.cpp:982-1000 | when that never happens, the reserved slots are exactly the queued ones |
| PipelineAccounting.RunsBalance | cpp/src/interest-control.cpp:109-129 | the exact law on every legal run of well-formed batches: the counter is the number of slots in which no data has arrived, plus the samples lost since the last restart, less what was never counted up or was counted down twice |
| PipelineAccounting.RunsNeverNegative | cpp/src/interest-control.cpp:109-117 | on runs in which everything is counted once, the counter never falls below the number of new slots, so the assertion in `decrement` holds |
| PipelineAccounting.DecrementFailsExactly | cpp/src/interest-control.cpp:109-117 | one arrival takes the counter below zero if and only if it is zero, a new slot accepts the segment, and the slot does not become ready without its header |
| PipelineAccounting.AgainAccounts | cpp/src/frame-buffer.cpp:595-616 | a request for a sample asked for before changes the balance, by one, exactly when it takes a fresh slot |
| PipelineAccounting.DeliverAccounts | cpp/src/remote-video-stream.cpp:38-47 | exactly what an arrival does to the balance, the pipeliner's own request included: minus one for parity accepted before any data, minus one for a late request that finds a free slot, plus one if a new slot becomes ready without its header, else nothing |
| PipelineAccounting.ParityFirstCountsTwice | cpp/src/remote-video-stream.cpp:38-47 | one sample, requested with one data and two parity segments as `getBatch` does, brings the counter to minus one when both parity segments come first |
| PipelineAccounting.PopAccounts | cpp/src/frame-buffer.cpp:748-773 | a popped delta frame leaves behind one count for each new slot that comes before it, a key frame none |
| PipelineAccounting.IssueAccounts | cpp/src/pipeliner.cpp:100-103 | a request leaves a count behind exactly when no slot is free or the sample is new or assembling already |
| PipelineAccounting.BatchOutcome | cpp/src/frame-buffer.cpp:112-145 | a well-formed batch is refused by a ready slot only, and makes an unused slot new |
| NetworkData.HighByteIsQuotient | cpp/src/network-data.hpp:395-398 | the upper length byte is the quotient by 256 |
| NetworkData.RoundTrip | cpp/src/network-data.hpp:353-405 | parsing encoded bytes gives the same blobs and payload, for up to 255 blobs below 2^16 bytes |
| NetworkData.AcceptsExactlyEncodings | cpp/src/network-data.hpp:353-387 | the parser accepts exactly the byte strings that encode some blobs and payload, leaving out parses that overrun |
| NetworkData.EncodeInjective | cpp/src/network-data.hpp:353-405 | different blobs or payloads encode differently |
| NetworkData.OvershootIsOneByte | cpp/src/network-data.hpp:371-375 | where the bound test lets a blob end behind the data, it is by exactly one byte |
| NetworkData.OvershootsExactly | cpp/src/network-data.hpp:371-375 | a vector is accepted with a blob ending behind it if and only if it is an encoding without payload whose last blob is not empty, less its last byte |
| NetworkData.BlobMayEndBehindTheData | cpp/src/network-data.hpp:371-375 | a packet for which it does |
| NetworkData.PrefixKeepsBlobs | cpp/src/network-data.hpp:353-387 | a prefix of a packet parses if and only if the whole header area is in it |
| NetworkData.EncodeExtends | cpp/src/network-data.hpp:353-387 | bytes appended to a packet only extend the payload |
| NetworkData.OpenRoundTrip | cpp/src/network-data.hpp:424-431 | a packet whose last blob has the header's size opens to the blobs, header and payload it was made of |
| NetworkData.WireLengthIsLength | cpp/src/network-data.hpp:301-344 | the static length computation is the length of the encoding |
| NetworkData.DataPacket.constructor | cpp/src/network-data.hpp:437-438 | a packet without blobs around the payload, not valid before its header is set |
| NetworkData.DataPacket.Reinit | cpp/src/network-data.hpp:353-387 | the loop computes the ranges the recursive parser gives, or marks the packet invalid |
| NetworkData.DataPacket.AddBlob | cpp/src/network-data.hpp:389-405 | the packet gains exactly this blob; an empty one is dropped, the length is cut to 16 bits, and the 256th blob wraps the counter and loses all |
| NetworkData.DataPacket.SetHeader | cpp/src/network-data.hpp:458-470 | the header becomes the last blob; a second one is refused |
| NetworkData.DataPacket.Clear | cpp/src/network-data.hpp:485-492 | an empty packet |
| VideoPacket.NumberRoundTrip | cpp/src/frame-data.hpp:224-239 | a packet number survives being copied to bytes and back, negative ones included |
| VideoPacket.LowByteFirst | cpp/src/frame-data.hpp:224-239 | the bytes of a number, low byte first |
| VideoPacket.GetSyncList | cpp/src/frame-data.hpp:183-194 | the map read from pairs of blobs behind the first |
| VideoPacket.SyncListRoundTrip | cpp/src/frame-data.hpp:183-239 | the sync list is read back, before and after the common header is added, if and only if no thread name is empty |
| VideoPacket.VideoRoundTrip | cpp/src/frame-data.hpp:145-239 | with any bytes behind it, a published packet shows the same header, sync list and exactly the frame |
| VideoPacket.VideoFramePacket.constructor | cpp/src/frame-data.hpp:145-161 | the encoder header as first blob in front of the frame |
| VideoPacket.VideoFramePacket.SetSyncList | cpp/src/frame-data.hpp:223-239 | refused after the header or a first list; otherwise appends name and number per entry |
| Slicing.Slice | cpp/src/frame-data.hpp:99-121 | the loop cuts the data into chunks of the payload length; none when the header leaves no room |
| Slicing.ChunksPartition | cpp/src/frame-data.hpp:99-121 | the slices put together are the data, all but the last are exactly full, the last is not empty |
| Slicing.SliceCount | cpp/src/frame-data.hpp:92-97 | `numSlices` counts the slices if and only if the data is not empty |
| Slicing.Publish | cpp/src/packet-publisher.hpp:97-152 | one segment for each slice, numbered from 0, with its header and slice and the last number as FinalBlockId |
| Slicing.NumberedOnce | cpp/src/packet-publisher.hpp:114-128 | the published numbers are 0 to one less than the count, each once, and the last one is the FinalBlockId of all |
| Slicing.PieceUnderNumber | cpp/src/packet-publisher.hpp:114-131 | the payload filed under number k is the bytes of the data from k times the payload length to the next multiple or the end |
| Slicing.FiledByNumber | cpp/src/packet-publisher.hpp:114-131 | filed under their own numbers, in whatever order, the published segments restore the data |
| Slicing.SegmentsWithinWireLength | cpp/src/frame-data.hpp:78-90 | no segment exceeds the wire length and all but the last fill it exactly |
| Slicing.Merge | cpp/src/frame-data.cpp:26-49 | payloads put together in the given order |
| Slicing.PublishThenMerge | cpp/src/frame-data.cpp:26-37 | opening all published segments and merging them in their order restores the data |
| Slicing.HeaderOfSegmentZero | cpp/src/network-data.cpp:247-259 | for every packet and slice length, the header that segment 0 gives is the last blob if the whole header area lies in slice 0, and the blob in front of the cut one if that one's length field is still inside |
| Slicing.OwnHeaderOfSegmentZero | cpp/src/network-data.cpp:247-259 | a packet whose header differs from its other blobs shows it in segment 0 if and only if the whole header area lies in slice 0 |
| Slicing.CutHeaderShown | cpp/src/network-data.hpp:353-387 | what parsing a packet cut inside a frame leaves as the last blob, for every cut |
| ReadPacket.VideoFrameSlot.ReadPacket | cpp/src/frame-buffer.cpp:366-460 | nothing without data or with too few segments and no parity; complete data laid out in the reused storage; otherwise the decoder's erasure list marks exactly the data segments present |
| ReadPacket.VideoFrameSlot.InsertSegments | cpp/src/frame-buffer.cpp:403-420 | segments go to their places in order of number, zeros in the gaps |
| ReadPacket.PiecesInPlace | cpp/src/frame-buffer.cpp:403-420 | with segments of one size, each lies where its number says, and where one is missing there are zeros |
| ReadPacket.EvenPiecesLineUp | cpp/src/frame-buffer.cpp:403-420 | with all pieces but the last of one size, the insertions put them in order in front of the old storage |
| EndToEnd.PublishedPacketIsRead | cpp/src/frame-buffer.cpp:366-460 | a published video packet, its data segments arriving in any order with repeats and parity in between, is read from any reused storage with the published common header, sync list and frame |
| EndToEnd.PlayedPacketIsRead | cpp/src/frame-buffer.cpp:366-460 | over any legal run of the consumer in which what arrives for a sample are its published segments: when it is popped there is always enough to read, reading needs no recovery if and only if all data segments are there, and then common header, sync list and frame are the published ones |
| EndToEnd.ReadsExactly | cpp/src/frame-buffer.cpp:366-460 | for any published segments in a slot: reading is complete if and only if all data segments are there, has too little if and only if one is missing and there is no data or no parity at all, and else needs the decoder |
| Delivery.DeliveredIsQueued | cpp/src/frame-buffer.cpp:577-1000 | a requested sample whose data segments all arrive, in any order and among others, is in the playback queue afterwards, if nothing is popped or reset meanwhile, requests are in time and publish times differ |
| EndToEnd.RunStaysGenuine | cpp/src/frame-buffer.cpp:627-681 | over such a run the slot of the sample, active or reserved, holds published segments only and knows their number |
| EndToEnd.ReservedIsRead | cpp/src/frame-buffer.cpp:366-460 | a locked slot never has too few segments for `readPacket` |
| EndToEnd.ReadsParts | cpp/src/frame-buffer.cpp:395-459 | with every part of a packet as payload, what is read begins with the whole packet |
| Names.RoundTripsExactly | cpp/src/name-components.cpp:406-445 | `extractInfo` followed by `getPrefix` gives a name back if and only if it is a well-formed segment name in which neither stream nor thread is called "ndnrtc" |
| Names.ExtractsPrinted | cpp/src/name-components.cpp:187-445 | every well-formed media, stream metadata and thread metadata name is parsed field by field, also when the base prefix contains "ndnrtc" |
| Names.SurvivorIsWellFormed | cpp/src/name-components.cpp:187-445 | a name that survives extraction and printing is well formed |
| NameLevels.EveryLevelSurvives | cpp/src/name-components.cpp:34-445 | what `getPrefix` gives of a media name at the levels of stream, timestamp, thread and sample is its front of that length; `extractInfo` accepts it if and only if no stream or thread in front of the last component is called "ndnrtc", with the fields down to the level and none beyond; it is printed back by the same filter, but for a stream with timestamp, which loses the timestamp |
| NameLevels.ManifestParses | cpp/src/name-components.cpp:283-390 | the name of a sample's manifest is understood as such with the fields of the sample, audio and video, whatever follows |
| NameLevels.MetaFrontParses | cpp/src/name-components.cpp:187-258 | a metadata name that ends with its version is understood without a segment number; without the version a thread's is, a stream's is rejected |
| NameLevels.MetaSplits | cpp/src/name-components.cpp:34-140 | metadata names are prefix and suffix of one level down to the stream (to the timestamp for a thread's); behind it the metadata component goes with the sample |
| NameLevels.ExtractsExactly | cpp/src/name-components.cpp:187-445 | exactly which names `extractInfo` accepts, and on exactly which it throws, as a grammar of their endings |
| Names.LaterAppHidesTheName | cpp/src/name-components.cpp:415-427 | a later "ndnrtc" gets the name rejected |
| Names.PrintsBack | cpp/src/name-components.cpp:36-85 | fields that describe a name print it |
| Names.PrintInjective | cpp/src/name-components.cpp:36-85 | different well-formed names print differently |
| Names.SplitsAtEveryLevel | cpp/src/name-components.cpp:36-134 | a media name is its prefix followed by its suffix at every level |
| Names.KeysDetermineSegments | cpp/src/name-components.cpp:36-134 | sample prefix and segment suffix together determine the segment, so the two keys of the frame buffer are injective |
| Names.NoCommonBit | cpp/src/name-components.cpp:51-56 | the second condition for the thread name, which compares before it masks, never holds |
| Names.NamespaceInfo.GetPrefix | cpp/src/name-components.cpp:36-85 | appends exactly the parts the filter asks for |
| Names.NamespaceInfo.GetSuffix | cpp/src/name-components.cpp:87-134 | the same for suffixes |
| Names.NamespaceInfo.Extract | cpp/src/name-components.cpp:406-445 | the scan from the back finds the last application component; all fields and the outcome, exceptions included |
| Names.NamespaceInfo.ExtractVideoStreamInfo | cpp/src/name-components.cpp:206-314 | fields and outcome for every shape of video name |
| Names.NamespaceInfo.ExtractAudioStreamInfo | cpp/src/name-components.cpp:316-404 | fields and outcome for every shape of audio name |
| Names.NamespaceInfo.ExtractMetaInfo | cpp/src/name-components.cpp:187-204 | version and optional segment of a metadata name; a wrong segment component throws |
| PlayoutClock.ClockLaw | cpp/src/playout-impl.cpp:100-181 | for every run the start of an iteration is determined to the microsecond: media time played, last delay, fast-forward, adjustments made and owed, drift, and processing time not made up for |
| PlayoutClock.ClockLawWithoutDrift | cpp/src/playout-impl.cpp:100-181 | with a constant whole sample period and a first sample nothing drifts, also over iterations on an empty queue |
| PlayoutClock.NoDrift | cpp/src/playout-impl.cpp:123-133 | an empty queue moves the last timestamp by exactly the last delay |
| PlayoutClock.ActualDelayNotNegative | cpp/src/playout-impl.cpp:148-181 | the delay handed to the timer is never negative, so the assertion in `updatePlayoutTime` holds |
| PlayoutClock.AbsorbsExactly | cpp/src/jitter-timing.cpp:133-167 | what is not waited is taken off the processing time; afterwards less than a millisecond of it is left or the wait is zero |
| PlayoutClock.EachIterationPays | cpp/src/playout-impl.cpp:162-181 | over every on-time run, after each iteration, the first included, what stays owed is never positive, and as long as anything is owed the delay handed to the timer is 0 |
| PlayoutClock.DebtIsPaid | cpp/src/playout-impl.cpp:100-181 | with samples at distance d, n iterations bring a debt down by n times d or to nothing, and only the rest is waited |
| PlayoutClock.TenIterationsPay | cpp/src/playout-impl.cpp:100-181 | ten iterations of 33 ms pay off any debt below 330 ms |
| PlayoutClock.EverySampleIsShownOnce | cpp/src/playout-impl.cpp:100-146 | over any run in which samples arrive in order, those shown and those still queued are the ones queued at first and then those that arrived, in that order, each once |
| PlayoutClock.HasSamplesExactly | cpp/src/playout-impl.cpp:109-131 | a queue with samples counts as empty if and only if one sample is alone with a period below one millisecond |
| PlayoutClock.RunsKeepInv | cpp/src/jitter-timing.cpp:89-167 | payments and waiting times balance after every event |
| PlayoutClock.JitterTiming.StartFramePlayout | cpp/src/jitter-timing.cpp:88-131 | the time beyond the wait joins the processing time; an early timer is the assertion |
| PlayoutClock.JitterTiming.UpdatePlayoutTime | cpp/src/jitter-timing.cpp:133-167 | whole milliseconds of processing time are absorbed as far as the delay goes |
| PlayoutClock.PlayoutImpl.Start | cpp/src/playout-impl.cpp:41-55 | throws when running; otherwise everything is reset and the first iteration done |
| PlayoutClock.PlayoutImpl.ExtractSample | cpp/src/playout-impl.cpp:100-146 | one iteration: what is popped, corrected, adjusted and handed to the timer |
| PlayoutClock.PlayoutImpl.CorrectAdjustment | cpp/src/playout-impl.cpp:148-160 | the difference between promised and true delay is owed |
| PlayoutClock.PlayoutImpl.AdjustDelay | cpp/src/playout-impl.cpp:162-181 | as much of the adjustment is paid as the delay allows |
| InterestControls.GetLimits | cpp/src/interest-control.cpp:23-40 | the lower limit is positive and at most the upper one, which is at most eight times as large |
| InterestControls.LimitsCoverDemand | cpp/src/interest-control.cpp:23-54 | the lower limit covers the samples produced in average round trip and deviation, up to one second's worth, and unless it is the smallest is not two above that; the upper limit is eight times the lower one or one second's worth |
| InterestControls.AfterNewLimits | cpp/src/interest-control.cpp:196-227 | new limits become the limits, but for a higher marked lower one; the limit follows only upwards |
| InterestControls.SmallestPipelineFits | cpp/src/interest-control.cpp:23-40 | the lower limit reaches the smallest pipeline size if and only if the rate is above 1.5 or not positive |
| InterestControls.SetLimitsKeepsOrder | cpp/src/interest-control.cpp:196-227 | new limits keep the order if and only if no marked lower limit stays above the new upper one; and when the limit then falls below the lower one |
| InterestControls.RunsKeepOrderExactly | cpp/src/interest-control.cpp:86-252 | over every run of all operations, lower <= upper and lower <= limit hold throughout if and only if none of four causes occurs: initialising below the smallest size under a smaller upper limit, new limits or a delay update under a marked lower limit above the new upper one, a mark above it, and a mark above the limit that is what the limits would be anyway |
| InterestControls.KeepsOrderExactly | cpp/src/interest-control.cpp:86-252 | one operation keeps limits in order if and only if it is none of those |
| InterestControls.InitialiseKeepsOrder | cpp/src/interest-control.cpp:86-94 | initialising keeps the order if and only if the upper limit or the new one allows the smallest pipeline |
| InterestControls.InitialiseCanBreakTheOrder | cpp/src/interest-control.cpp:86-94 | a rate of one sample a second, then initialising with two, breaks it |
| InterestControls.RunsKeepOrder | cpp/src/interest-control.cpp:86-252 | without a marked lower limit and at rates above 1.5 or not positive, the limits stay in order over every run, whatever it is initialised with |
| InterestControls.WithholdOutOfOrder | cpp/src/interest-control.cpp:62-66 | with the limit below the lower one the unsigned difference wraps, and a withhold sets the limit to the upper one |
| InterestControls.WithholdHalves | cpp/src/interest-control.cpp:146-162 | a withhold halves the distance to the lower limit, rounding down, and reports false exactly when there is none |
| InterestControls.WithholdsReachTheBottom | cpp/src/interest-control.cpp:146-162 | n withholds reach the lower limit from any distance below 2^n |
| InterestControls.BurstGrows | cpp/src/interest-control.cpp:131-144 | a burst raises the limit by half, rounded up, or to the upper limit if that is less |
| InterestControls.InterestControl.Initialize | cpp/src/interest-control.cpp:86-94 | from a limit of at least the smallest size, that limit is set and the limits are in order |
| InterestControls.InterestControl.Increment | cpp/src/interest-control.cpp:119-129 | counts up below the limit, else refuses |
| InterestControls.InterestControl.DoWithhold | cpp/src/interest-control.cpp:146-162 | limit and result of a withhold, for limits out of order too |
| InterestControls.InterestControl.SetLimitsFrom | cpp/src/interest-control.cpp:196-227 | limits from rate and delay, respecting a marked lower limit |
| InterestControls.InterestControl.ChangeLimitTo | cpp/src/interest-control.cpp:229-252 | the limit is clamped, to the lower bound first |
| Pipeliners.RunsAreContiguous | cpp/src/pipeliner.cpp:84-118 | between settings of sequence numbers the numbers requested of each class follow one another without gap or repeat |
| Pipeliners.FirstThenDeltas | cpp/src/pipeliner.cpp:92-117 | a filling requests as many samples as there is room for, the due class first and delta samples after it |
| Pipeliners.Pipeliner.FillUpPipeline | cpp/src/pipeliner.cpp:84-118 | terminates having issued exactly the room, and the counter is at the limit then if it was below |
| Pipeliners.Pipeliner.Express | cpp/src/pipeliner.cpp:58-74 | one sample is requested, not counted and not advanced |
| Pipeliners.GetBatch | cpp/src/pipeliner.cpp:165-197 | expected data segments in order, then parity ones |
| Pipeliners.BatchFillsSlot | cpp/src/pipeliner.cpp:165-197 | a free slot accepts any batch |
| Pipeliners.BatchAsksForAll | cpp/src/pipeliner.cpp:165-197 | a clear slot that took a batch has requested exactly the data and parity segments below the two numbers, each once, under the sample's name |
| PipelineControls.RunsAreSafe | cpp/src/pipeline-control-state-machine.cpp:195-202 | over any run playout is allowed exactly while adjusting or fetching, and bootstrapping is entered only from idle right after the reset |
| PipelineControls.PlaybackStartsExactly | cpp/src/pipeline-control-state-machine.cpp:241-416 | after any run: a bootstrapping streaming machine starts playback if and only if metadata has come since it began to bootstrap and the segment is of an expected frame that starts playback off, and adjusts then; a playback-driven one if and only if the segment is of a key frame, and fetches then; nothing else starts it |
| PipelineControls.MetadataIsRemembered | cpp/src/pipeline-control-state-machine.cpp:233-280 | a bootstrapping streaming machine has metadata if and only if a metadata segment came since it began to bootstrap |
| PipelineControls.PlayingGoesOn | cpp/src/pipeline-control-state-machine.cpp:716-761 | while playing, adjusting and fetching change into one another exactly on segments with the command to increase (a playback-driven machine goes on fetching); a stop leads to idle and starvation to bootstrapping |
| PipelineControls.NotPlayingGoesOn | cpp/src/pipeline-control-state-machine.cpp:602-663 | while not playing, a start leads to bootstrapping, a stop to idle, starvation to bootstrapping, and all else leaves the state |
| PipelineControls.SegmentDoes | cpp/src/pipeline-control-state-machine.cpp:241-416 | what a segment makes the machine do, in order: every one handled while playing fills the pipeline, as do metadata, expected frames or the seed key frame while bootstrapping |
| PipelineControls.OtherDoes | cpp/src/pipeline-control-state-machine.cpp:187-252 | what start, stop and timeouts make it do, in order |
| PipelineControls.StarvationDoes | cpp/src/pipeline-control.cpp:147-188 | starvation while playing resets and turns playout off, then asks anew; in idle it only asks |
| PipelineControls.StatisticsFollow | cpp/src/pipeline-control-state-machine.cpp:665-686 | all operations but starvation keep the state statistic at the state and count no rebuffering |
| PipelineControls.StarvationBootstraps | cpp/src/pipeline-control.cpp:147-151 | starvation from any state ends in bootstrapping with playout off |
| PipelineControls.StarvationStatistics | cpp/src/pipeline-control-state-machine.cpp:665-686 | with the observer attached a starvation that stops playback is counted twice and leaves the state statistic at idle; otherwise the statistic shows the state |
| PipelineControls.NacksAreIgnored | cpp/src/pipeline-control-state-machine.cpp:689-706 | a run ends, trace and statistics included, as the same run without its Nacks |
| PipelineControls.ThrowsExactly | cpp/src/pipeline-control-state-machine.cpp:613-637 | dispatch throws exactly when a playback-driven machine that fetches is told to increase the pipeline |
| PipelineControls.DispatchedOk | cpp/src/pipeline-control-state-machine.cpp:613-686 | one event keeps the invariant, with the restart nested in it |
| PipelineControls.PipelineControl.Dispatch | cpp/src/pipeline-control-state-machine.cpp:613-637 | the re-entrant dispatch computes what the table without nesting says |
| PipelineControls.PipelineControl.SwitchToState | cpp/src/pipeline-control-state-machine.cpp:665-686 | leaving, entering, notifying and counting, with what the observer does in between |
| PipelineControls.PipelineControl.OnStateMachineChangedState | cpp/src/pipeline-control.cpp:174-188 | a fall to idle not caused by a reset stops and starts the machine inside the change |
| PipelineControls.PipelineControl.StartUp | cpp/src/pipeline-control.cpp:106-116 | throws unless idle, else attaches and bootstraps |
| PipelineControls.PipelineControl.Stop | cpp/src/pipeline-control.cpp:118-123 | detaches and resets |
| PipelineControls.PipelineControl.SegmentStarvation | cpp/src/pipeline-control.cpp:147-151 | starvation followed by start |
| SegmentFetchers.RunsKeepInv | cpp/src/segment-fetcher.cpp:54-206 | in every reachable state segments 0 to k-1 are kept in order and exactly one Interest is outstanding or exactly one callback was made; completion hands over the concatenation up to the final segment |
| SegmentFetchers.FetchFinishes | cpp/src/segment-fetcher.cpp:54-206 | served by a producer that answers Interests with their own segments, the fetch completes within final + 2 Interests, and within final + 1 exactly when the first answer is segment 0 |
| SegmentFetchers.AnswerLeadsTo | cpp/src/segment-fetcher.cpp:84-206 | an answer is kept exactly when it is the next segment; exactly when it fails, completes, or has the next segment asked for, of the version that was answered |
| SegmentFetchers.TimeoutLeadsTo | cpp/src/segment-fetcher.cpp:226-238 | a timeout is reported as such and nothing more is asked for |
| SegmentFetchers.RunsReport | cpp/src/segment-fetcher.cpp:84-206 | over every run the packets reported as invalid are exactly those that failed verification, in order |
| SegmentFetchers.ProcessedInv | cpp/src/segment-fetcher.cpp:105-206 | processing one packet keeps the invariant |
| SegmentFetchers.Concatenate | cpp/src/segment-fetcher.cpp:174-187 | copying part by part into a buffer of the total size gives the concatenation |
| SegmentFetchers.SegmentFetcher.OnSegmentReceived | cpp/src/segment-fetcher.cpp:84-103 | the outstanding Interest is used up, a failed verification recorded, the packet processed once |
| SegmentFetchers.SegmentFetcher.ProcessSegment | cpp/src/segment-fetcher.cpp:105-206 | every branch: error, retry, keep and go on, complete |
| SegmentFetchers.SegmentFetcher.OnTimeout | cpp/src/segment-fetcher.cpp:226-238 | a timeout ends the fetch with an error |
| LatencyControls.CommandsAreSpaced | cpp/src/latency-control.cpp:298-364 | on every run an increase comes more than the window after any earlier command, and two decreases are more than the window apart or have an observed delay change between them |
| LatencyControls.CommandsExactly | cpp/src/latency-control.cpp:298-405 | for every arrival of every run, from the history alone: increase if and only if data is stale and more than the window has passed since the last command or seen change; decrease if and only if it is fresh and no change is awaited, or none is seen and the window has passed |
| LatencyControls.StabilityAwaited | cpp/src/latency-control.cpp:318-356 | stability is awaited from a seen change or an increase on, until fresh data comes while no change is awaited |
| LatencyControls.StepTracks | cpp/src/latency-control.cpp:298-364 | one arrival keeps the spacing and the bookkeeping behind it |
| LatencyControls.UnobservedDecreasesAreNotSpaced | cpp/src/latency-control.cpp:398-405 | without an observer that acts decreases can follow one another at once |
| LatencyControls.LatencyControl.SampleArrived | cpp/src/latency-control.cpp:298-364 | command, timestamp and flags after an arrival |
| LatencyControls.LatencyControl.PipelineChanged | cpp/src/latency-control.cpp:398-405 | only a decrease starts waiting for a change |
| Estimators.Average.NewValue | cpp/src/estimators.cpp:68-95 | the value is the mean of the last values in the window, the variance that of the window at each multiple of its size and unchanged in between |
| Estimators.Average.OldestIsFirstOfWindow | cpp/src/estimators.hpp:97 | the oldest value is the first of the window |
| Estimators.SampleWindow.IsLimitReached | cpp/src/estimators.cpp:20-26 | true at every n-th call |
| Estimators.SinceLimitIsRemainder | cpp/src/estimators.cpp:20-26 | the limit is reached exactly at the multiples of the window size |
| Estimators.VarianceIsMeanSquareLessSquaredMean | cpp/src/estimators.cpp:89-94 | the variance computed is the mean of squares less the square of the mean |
| Estimators.VarianceNotNegative | cpp/src/estimators.hpp:94-95 | so its square root, the deviation, exists |
| AudioBundles.NothingLostOrReordered | cpp/src/audio-thread.cpp:101-111 | bundles handed out and the current one hold exactly the delivered samples that fit an empty bundle, in order |
| AudioBundles.BundlesAreFull | cpp/src/audio-thread.cpp:101-111 | over any run of samples that fit a bundle, no bundle goes out that had room for the sample behind it |
| AudioBundles.HandsOutExactly | cpp/src/audio-thread.cpp:101-111 | a bundle goes out if and only if what is left of it has no room for the next sample |
| AudioBundles.DeliverKeepsOrder | cpp/src/audio-thread.cpp:101-111 | a sample is refused exactly when no empty bundle has room for it |
| AudioBundles.EqualSamplesFill | cpp/src/frame-data.hpp:385-393 | equal samples fill a bundle to exactly the count and length that `wireLength` predicts |
| AudioBundles.FinishedWithinWireLength | cpp/src/frame-data.hpp:403-407 | with its header set a bundle takes the wire length less the remaining space, and exceeds it only when not even the header fits |
| AudioBundles.AddConserves | cpp/src/frame-data.hpp:339-365 | remaining and used space add up to the capacity |
| AudioBundles.AudioBundlePacket.Append | cpp/src/frame-data.hpp:339-365 | the sample joins the packet's blobs if there is space, else the source throws |
| AudioBundles.AudioBundlePacket.Clear | cpp/src/frame-data.hpp:332-337 | an empty bundle with full capacity |
| AudioBundles.AudioThread.Deliver | cpp/src/audio-thread.cpp:101-111 | a full bundle goes out as its encoding, numbered, before the sample joins the next |
| InterestControls.InterestControl.Reset | cpp/src/interest-control.cpp:96-107 | counter and limits as at the start, with no marked lower limit |
| InterestControls.InterestControl.Decrement | cpp/src/interest-control.cpp:109-117 | counts down by one, and the assertion fails exactly when the counter is not positive |
| InterestControls.InterestControl.DoBurst | cpp/src/interest-control.cpp:131-144 | once initialised, the limit grows by half of itself, rounded up, as far as the upper limit |
| InterestControls.InterestControl.MarkLowerLimit | cpp/src/interest-control.cpp:164-170 | the given lower limit is kept against smaller ones from then on |
| InterestControls.InterestControl.TargetRateUpdate | cpp/src/interest-control.cpp:189-194 | the first rate initialises the control; limits follow |
| InterestControls.InterestControl.OnOriginalDrdUpdate | cpp/src/interest-control.cpp:177-181 | limits follow the delay once initialised |
| Pipeliners.Pipeliner.SetSequenceNumber | cpp/src/pipeliner.cpp:128-135 | one counter is set, the other kept |
| Pipeliners.Pipeliner.SetNeedSample | cpp/src/pipeliner.hpp:124 | the class to ask for next |
| Pipeliners.Pipeliner.Reset | cpp/src/pipeliner.cpp:120-126 | delta samples are next; the numbers stay |
| PlayoutClock.PlayoutImpl.Stop | cpp/src/playout-impl.cpp:57-66 | a running playout stops and its clock is reset |
| PlayoutClock.PlayoutImpl.AddAdjustment | cpp/src/playout-impl.hpp:39 | the adjustment is owed |
| PlayoutClock.JitterTiming.Flush | cpp/src/jitter-timing.cpp:183-188 | the clock starts anew |
| PipelineControls.PipelineControl.Transition | cpp/src/pipeline-control-state-machine.cpp:653-663 | the table's change of state, if it has one |
| SegmentFetchers.SegmentFetcher.FetchNextSegment | cpp/src/segment-fetcher.cpp:67-82 | one more Interest, for that segment of the same version |
| LatencyControls.LatencyControl.Reset | cpp/src/latency-control.cpp:366-376 | no timestamp, nothing awaited |
| AudioBundles.AudioThread.HandOut | cpp/src/audio-thread.cpp:103-108 | the bundle goes out under the next number and is emptied |
| PlaybackQueues.PlaybackQueue.Insert | cpp/src/frame-buffer.cpp:991 | a reserved sample takes its place by time, or none when the time is taken |
| PlaybackQueues.PlaybackQueue.TakeFront | cpp/src/frame-buffer.cpp:886-896 | the earliest sample with the gap to the next one, or the period for the last |
| ReadPacket.VideoFrameSlot.LayOutData | cpp/src/frame-buffer.cpp:399-455 | storage sized for all segments, data laid out, cut behind the data |
| ReadPacket.NoneMissing | cpp/src/frame-buffer.cpp:422-455 | as many distinct data segments as announced leave no gap |
| PipelineAccounting.StepAccounts | cpp/src/remote-video-stream.cpp:38-47 | what every event does to the balance of counter and new slots |
| Consumers.PopKeeps | cpp/src/frame-buffer.cpp:882-913 | a pop keeps buffer and queue in order together |
| Consumers.DeliverKeeps | cpp/src/frame-buffer.cpp:627-681 | an arrival keeps buffer and queue in order together |

## Left out

- Erasure coding: the arithmetic is in OpenFEC; reading a frame stops at `NeedsRecovery`, after the erasure list.
- Bundles of several audio segments: `AudioBundleSlot::readBundle` inserts every segment at the front.
- ndn-cpp: names are sequences of tagged components, the face and the content cache are inputs and effects. Percent-escaping is not modelled: the text of a component is its escaped form.
- The canonical order of thread prefixes is a rank; within a thread delta samples sort before key samples and numbers numerically.
- Locks, the event loop and timers: every operation is one step, with the clock as an input.
- Floating-point rounding and machine overflow of counters and times; widths are modelled where the code cuts a number (blob counter and length, packet numbers, name numbers).
- The fields of slots, namespace information, interest control, playout and the machines are grouped in one record per object; times and sizes kept only for statistics are not modelled.
- Buffer queries, slot counts by state, dumps, `SampleWindow::cut`, time windows, the frequency meter and the filter: they would only add easy members.
- What Adjusting remembers of the pipeline limit, and the effect of latency commands on it: the commands are inputs of the state machine, the limit is in InterestControl.dfy.
- `RetransmissionController`, `DrdChangeEstimator` (its verdict is an input), `SampleEstimator`, `InterestQueue`, logging, statistics other than the drop, rebuffering and state counters, signing, storage, capturing and rendering.
- The user-verification path of the segment fetcher, which processes a packet that fails verification twice.
- The playback queue's test of the stream prefix: one stream per buffer.
- PlaybackQueues.PlaybackQueue.OnNewData: requires that the sample is not reserved already, because what the lost slot does afterwards is not modelled; `FrameBuffer.LateRequestLosesASlot` shows how such a sample comes about.
- ReadPacket.VideoFrameSlot.ReadPacket: the storage left behind when the decoder is needed is not described, and at least one segment must have been fetched, as the source dereferences the first one.
- BufferSlots.BufferSlot.GetHeader: the sample rate and timestamp come with segment 0 as a field; which bytes of its content they are parsed from is `Slicing.HeaderOfSegmentZero`, the decoding of those bytes as numbers is not modelled.
- Names.RoundTripsExactly: component texts are taken in their escaped form; escaping and unescaping are not modelled.
- Pipeliners.Pipeliner.FillUpPipeline: says which samples are requested and counted; handing each batch to the buffer, which may throw and end the loop, is `Consumers.Step`.
- VideoPacket.GetSyncList: requires value blobs of at least four bytes, because the source reads past the end of shorter ones.
- VideoPacket.VideoFramePacket.SetSyncList: requires names below 2^16 bytes and no more blobs than the one-byte counter holds; what happens beyond that is `NetworkData.DataPacket.AddBlob`.
- AudioBundles.AudioBundlePacket.Append: says what the packet's blobs are for up to 255 samples, where the one-byte counter ends; samples are below 2^16 bytes, the width of the length field.
- PipelineControls.RunsAreSafe: which metadata and segments make the machine leave bootstrapping is an input, and so are the sequence numbers computed from metadata.
