# Verified cores of the aether client

Dafny models of the stateful and algorithmic cores of the aether client library, with proofs of what they
keep and compute. `dafny verify dfyconfig.toml` checks everything.

- **SafeStream** (`RingIndex`, `SafeStreamTypes`, `SendDataBuffer`, `SendingChunkList`, `SafeStreamSending`,
  `SafeStreamReceiving`): the reliable stream over an unreliable gate. Each class is written with its ring
  arithmetic and loops and proved against functions on plain stream positions. `SafeStreamProtocol` puts two
  ends and a network that loses, duplicates and reorders together as a state machine over those functions;
  `SafeStreamRuns` states what holds over whole runs, `SafeStreamEffects` what each update brings about,
  `SafeStreamBlocking` when a receiver stops delivering, `SafeStreamWitnesses` gives runs that fall short.
- **Ptr** (`RefTree`, `Ptr`, `PtrCascade`): counted pointers that find out on reset whether their object is only
  held by itself, and all that a reset deletes.
- **Domain** (`Registry`, `Objects`, `Domain`): saving and loading graphs of objects, one record for each
  class of an object.
- **Binary formats** (`Bytes`, `PackedInt`, `MStream`, `StreamCuts`, `StreamMaps`, `ApiProtocol`): variable-length
  integers, streams of nested values, what happens when they end too early, packets of messages.
- **Smaller cores**: `BufferGate`, `ActionRegistry`, `Crc32`.

`Wrappers`, `Arithmetic` and `Sequences` hold the few general definitions and facts that several of these need.

## How runs are modelled

The network is the set of all messages ever sent; any of them may arrive at any time, any number of times,
or never. Times are parameters of the updates. A run of SafeStream (`Protocol.Enabled`) stays one window
short of the end of the 16-bit ring, sends no empty data, sets no slice longer than the window, has a sender
clock that does not go back, and drops data (by confirmation, failure or stop) at offsets at most one window
behind the end of the sender's buffer. `Runs.ConfirmGuardHolds` shows that confirmations meet the last
condition by themselves until something was rejected or stopped. In a configuration the
window is positive, two windows are less than the ring, and the send buffer holds at most a window.

BufferGate may be told about its gate below, and a buffered write may finish, at any point of a run, and the
gate below may stop being writable after any number of writes; a write it was given does not finish while it is
being given.

## Where the code does not do what one might expect

Each of these has members that state when it happens, for all inputs, or a run or input for which it does.

- A Repeat that starts below the receiver's confirmed offset and ends above it is taken for a duplicate and
  confirmed whole, so the sender can count bytes as confirmed that were never delivered
  (`Runs.RepeatConfirmsDeliveredIff`, `Witnesses.StraddlingRepeatOverconfirms`).
- A chunk stored behind one it overlaps is left below the confirmed offset and blocks the receiver for good
  (`Blocking.StepBlocksIff`, `Blocking.StepKeepsDisjointIff`, `Blocking.BlockedForever`, `Witnesses.OverlapBlocks`).
- Clockwise steps count one place more on the ring than counter-clockwise steps and distances
  (`RingIndex.CounterClockwiseUndoes`, `RingIndex.DistanceAfterClockwise`).
- The confirmation of the last byte of a block does not report the block as done; the last block accepted is never
  reported done while nothing follows it (`Sending.ConfirmedMeans`, `Effects.LastBlockIsNotDone`).
- RemoveUpTo keeps the byte at the offset itself in a chunk that goes on behind it
  (`ChunkList.RemoveUpToCoverage`).
- A merged chunk has the lower of two counts, so a range can be repeated more often than max_repeat_count_ says
  when a part of it was sent on its own (`ChunkList.CountOfMerged`, `ChunkList.CountFalls`).
- A write to a buffer gate can wait although the gate below is linked and writable, until something is finished
  or the gate below changes (`BufferGate.WaitsThoughReadyIff`, `BufferGate.SecondWriteWaits`).
- A Ptr reset from inside what its object reaches can delete the object although it is held from outside, or leave
  it although nothing holds it (`Ptr.DeletesHeldObjectIff`, `Ptr.SelfResetDeletesHeldObject`,
  `PtrCascade.InsideDeletesHeld`, `PtrCascade.InsideLeaks`).
- Some truncated pairs, vectors of pairs and maps are read without an error (`StreamCuts.PairCutUnnoticedIff`,
  `StreamCuts.SequenceCutUnnoticedIff`, `StreamCuts.MapCutUnnoticedIff`, `StreamCuts.CutWitness`).
- A packet that ends within a message dispatches a message made up from what is there, and then more from the bytes
  that this one left: a Send of zeros followed by its data as messages, or two Confirms of 0 for one of 5
  (`ApiProtocol.CutPacketIff`, `ApiProtocol.CutSendData`, `ApiProtocol.CutConfirm`, `ApiProtocol.CutConfirmOfFive`).
- A buffer gate with a bound of zero has no bound (`BufferGate.ZeroIsNoBound`).
- Assigning over a share of the action registry leaks its entry (`ActionRegistry.OverwritingLeaks`).
- A reference that was loaded comes back unloaded when its object is flagged, and an unflagged unloaded one
  comes back loaded when its object is stored (`Domain.PartUnchangedIff`, `Domain.ReferencesChange`).

## Model

| member | source | states |
|---|---|---|
| RingIndex.ClockwiseAdds | aether/ring_buffer.h:41-49 | Clockwise by d < max is addition modulo max + 1 |
| RingIndex.DistanceAfterClockwise | aether/ring_buffer.h:59-67 | Distance back to the result of Clockwise(d) is d when the step did not wrap and d - 1 when it did |
| RingIndex.CounterClockwiseUndoes | aether/ring_buffer.h:50-57 | CounterClockwise(d) undoes Clockwise(d) if and only if v + d <= max: the two steps count different ring sizes |
| SafeStreamTypes.OperatorsOfRingIndex | aether/ring_buffer.h:94-118 | the operators of SafeStreamRingIndex on the 16-bit ring, written piecewise, are the steps and the distance of the ring index |
| SafeStreamTypes.RangeOrderIsIntegerOrder | aether/stream_api/safe_stream/safe_stream_types.h:29-49 | with less than half a ring and no wrap, InRange, Before and After are the integer comparisons, and exactly one of them holds |
| SendBuffer.SendDataBuffer.AddData | aether/stream_api/safe_stream/send_data_buffer.cpp:35-42 | appends the block behind the end of the stream; the blocks stay one gap-free run, and the size counter stays exact |
| SendBuffer.SendDataBuffer.GetSlice | aether/stream_api/safe_stream/send_data_buffer.cpp:44-89 | the slice is exactly bytes o up to min(o + n, end) of the buffered stream, and empty when o is not buffered |
| SendBuffer.SendDataBuffer.Confirm | aether/stream_api/safe_stream/send_data_buffer.cpp:91-102 | retires as Done exactly the blocks whose last byte lies before the offset; the rest is still one gap-free run with an exact size |
| SendBuffer.SendDataBuffer.Reject | aether/stream_api/safe_stream/send_data_buffer.cpp:104-115 | retires as Failed exactly the blocks that start at or before the offset; the rest is still one gap-free run with an exact size |
| SendBuffer.SendDataBuffer.Stop | aether/stream_api/safe_stream/send_data_buffer.cpp:117-128 | retires as Stopped exactly the blocks that start at or before the offset; the rest is still one gap-free run with an exact size |
| SendBuffer.RemoveIf | aether/stream_api/safe_stream/send_data_buffer.cpp:91-128 | one pass over the list removes and reports exactly the retired blocks, in order, and subtracts their sizes |
| SendBuffer.CutSplits | aether/stream_api/safe_stream/send_data_buffer.cpp:91-128 | in a gap-free buffer the retired blocks are a prefix, and what is left starts where they end |
| SendBuffer.RetiresByRing | aether/stream_api/safe_stream/sending_data_action.cpp:22-27 | the ring comparison of a block with the confirmed offset is the integer comparison |
| SendBuffer.RetiresBlock | aether/stream_api/safe_stream/send_data_buffer.cpp:91-128 | each block: reported with its outcome and gone when it is retired, still buffered otherwise |
| SendBuffer.FlattenLength | aether/stream_api/safe_stream/send_data_buffer.cpp:35-42 | the bytes of a gap-free buffer are as many as lie between its start and its end |
| ChunkList.RegisterCoverage | aether/stream_api/safe_stream/sending_chunk_list.cpp:27-75 | for every byte: covered afterwards if and only if it was covered or lies in the new range; every chunk stays non-empty |
| ChunkList.RemoveUpToCoverage | aether/stream_api/safe_stream/sending_chunk_list.cpp:77-91 | for every byte: covered afterwards if and only if it lies behind the offset and was covered, or is the offset itself inside a chunk that goes on behind it |
| ChunkList.RegisterTrims | aether/stream_api/safe_stream/sending_chunk_list.cpp:51-72 | when an overlapped chunk begins in the new range and is not that range, no other chunk holds a byte of the range afterwards, except one that goes past it on both sides |
| ChunkList.CountOfNew | aether/stream_api/safe_stream/sending_chunk_list.cpp:36-40 | a range in which no listed chunk begins counts as never sent |
| ChunkList.CountOfMerged | aether/stream_api/safe_stream/sending_chunk_list.cpp:42-72 | the same range keeps its count; a merged chunk has the lower of the counts of the first chunk that begins in it and of the last one it overlaps |
| ChunkList.CountFalls | aether/stream_api/safe_stream/sending_chunk_list.cpp:51-72 | a list for which this takes a range sent any number of times for one sent once |
| ChunkList.RegisterKeepsTimes | aether/stream_api/safe_stream/sending_chunk_list.cpp:27-75 | the list stays ordered by send time |
| ChunkList.RemoveKeepsTimes | aether/stream_api/safe_stream/sending_chunk_list.cpp:77-91 | the list stays ordered by send time |
| ChunkList.FrontTimesOutFirst | aether/stream_api/safe_stream/safe_stream_sending.cpp:122-137 | in such a list some chunk timed out if and only if the front one did |
| ChunkList.SendingChunkList.Register | aether/stream_api/safe_stream/sending_chunk_list.cpp:27-75 | the loops over the list, with ring comparisons, give the list that coverage and time order are proved of |
| ChunkList.SendingChunkList.RemoveUpTo | aether/stream_api/safe_stream/sending_chunk_list.cpp:77-91 | the same for RemoveUpTo |
| Sending.SafeStreamSending.SendData | aether/stream_api/safe_stream/safe_stream_sending.cpp:58-78 | data is taken if and only if with it the buffer holds at most its capacity; then the buffered bytes are those before with the data behind them, otherwise nothing changes |
| Sending.SafeStreamSending.Confirm | aether/stream_api/safe_stream/safe_stream_sending.cpp:80-88 | a confirmation of a byte from last_confirmed_ up to a window after it moves last_confirmed_ behind that byte; every block that ends before its byte is reported done and gone, every other one stays, the size is that of the blocks left, and for every byte it is stated whether a chunk still covers it; any other confirmation changes nothing |
| Sending.SafeStreamSending.RequestRepeatSend | aether/stream_api/safe_stream/safe_stream_sending.cpp:90-97 | sending goes on from the requested offset |
| Sending.SafeStreamSending.ReportWriteFailure | aether/stream_api/safe_stream/safe_stream_sending.cpp:102-114 | every block that starts at or before the offset is reported failed and gone, every other one stays, the size is that of the blocks left, and the chunks up to the offset are dropped |
| Sending.SafeStreamSending.StopSending | aether/stream_api/safe_stream/safe_stream_sending.cpp:228-232 | the same, with the blocks reported stopped |
| Sending.SafeStreamSending.SetMaxDataSize | aether/stream_api/safe_stream/safe_stream_sending.cpp:116-120 | only the maximal slice changes, to the size cut to 16 bits; the sender stays valid if and only if that is at most a window |
| Sending.SafeStreamSending.HandleTimeouts | aether/stream_api/safe_stream/safe_stream_sending.cpp:122-137 | in a list ordered by time: when some chunk timed out, sending goes back to the first byte of a chunk with the least send time, otherwise nothing changes |
| Sending.WakesForFirstTimeout | aether/stream_api/safe_stream/safe_stream_sending.cpp:122-137 | with chunks waiting and none timed out, some chunk times out at a time if and only if it is later than the time returned; otherwise the time returned is now |
| Sending.SafeStreamSending.SendSlice | aether/stream_api/safe_stream/safe_stream_sending.cpp:139-174 | nothing happens if and only if there is no data at last_sent_offset_ or no room in the window; otherwise the step of TransmitMeans |
| Sending.SafeStreamSending.Update | aether/stream_api/safe_stream/safe_stream_sending.cpp:44-51 | timeouts and then one slice; returns the time of the timeouts |
| Sending.NextSliceFits | aether/stream_api/safe_stream/safe_stream_sending.cpp:139-174 | the next slice is no longer than the maximal slice and ends within the window and the buffered data |
| Sending.ConfirmedMeans | aether/stream_api/safe_stream/safe_stream_sending.cpp:80-88 | what a confirmation removes and what it leaves, block by block and byte by byte |
| Sending.AbandonedMeans | aether/stream_api/safe_stream/safe_stream_sending.cpp:102-114 | the same for giving up, which also takes the block that holds the offset and leaves the confirmed offset |
| Sending.TimeoutResumes | aether/stream_api/safe_stream/safe_stream_sending.cpp:122-137 | sending resumes at the first byte of a chunk with the least send time if some chunk timed out, and stays where it is if none did |
| Sending.TransmitMeans | aether/stream_api/safe_stream/safe_stream_sending.cpp:139-174 | the chunk written starts at last_sent_offset_ and is as long as allowed and buffered, the next one starts behind it, it is listed with this time and one more count, and what is covered grows by its range; it is a Send if and only if it was never sent, a Repeat with its count up to the limit, and above it all blocks up to its end fail and nothing is written |
| Sending.RangeIsRepeated | aether/stream_api/safe_stream/safe_stream_sending.cpp:162-173 | a range in which no chunk begins is sent once, repeated max_repeat_count_ times with numbers from 1, and then given up |
| Sending.ConfirmedOk | aether/stream_api/safe_stream/safe_stream_sending.cpp:80-88 | a confirmation keeps the invariant of the sender |
| Sending.TransmitOk | aether/stream_api/safe_stream/safe_stream_sending.cpp:139-174 | a send step keeps the invariant of the sender |
| Sending.TimeoutOk | aether/stream_api/safe_stream/safe_stream_sending.cpp:122-137 | handling timeouts keeps the invariant of the sender |
| Receiving.SafeStreamReceiving.ReceiveSend | aether/stream_api/safe_stream/safe_stream_receiving.cpp:62-74 | data from the confirmed offset on, within a window, is stored as AddDataChunk says; other data changes nothing |
| Receiving.SafeStreamReceiving.ReceiveRepeat | aether/stream_api/safe_stream/safe_stream_receiving.cpp:76-91 | the same, but other data is confirmed by its last byte |
| Receiving.SafeStreamReceiving.AddDataChunk | aether/stream_api/safe_stream/safe_stream_receiving.cpp:93-132 | for every position: its byte is stored afterwards if and only if it was, or the chunk is no duplicate, has it, and no chunk starts between its offset and the position |
| Receiving.SafeStreamReceiving.CheckCompletedChains | aether/stream_api/safe_stream/safe_stream_receiving.cpp:140-174 | a delivery moves the confirmed offset by its length and queues one confirmation, of its last byte; without one nothing changes; when it is time, no chunk is left that starts at the confirmed offset; deliveries are throttled until the time returned |
| Receiving.SafeStreamReceiving.CheckMissedOffset | aether/stream_api/safe_stream/safe_stream_receiving.cpp:176-194 | when the repeat time has passed, each gap in front of a stored chunk is counted and, unless one was asked for too often, all of them are asked for in order, and nothing else; until the time returned nothing is asked for |
| Receiving.SafeStreamReceiving.AddExpectedChunk | aether/stream_api/safe_stream/safe_stream_receiving.cpp:216-232 | a missing offset is noted once and asked for each time, until it was asked for too often |
| Receiving.SafeStreamReceiving.Respond | aether/stream_api/safe_stream/safe_stream_receiving.cpp:196-214 | queued confirmations and then queued repeat requests become messages, one for each, in order; when something was asked for too often there is no message and the confirmations stay queued |
| Receiving.SafeStreamReceiving.Update | aether/stream_api/safe_stream/safe_stream_receiving.cpp:37-50 | delivery, missed offsets and answers or failure, one after the other; returns the earlier of the two times |
| Receiving.JoinChunks | aether/stream_api/safe_stream/safe_stream_receiving.cpp:243-258 | the bytes of the chunks, one after the other |
| Receiving.RunIsLongest | aether/stream_api/safe_stream/safe_stream_receiving.cpp:140-174 | the run found is contiguous from the confirmed offset, and the chunk behind it does not continue it |
| Receiving.CompletedDeliversRun | aether/stream_api/safe_stream/safe_stream_receiving.cpp:140-174 | unthrottled, the confirmed offset moves by exactly the bytes delivered, the chunks of the run are removed, and no front chunk starts at the new offset |
| Receiving.CompletedConfirms | aether/stream_api/safe_stream/safe_stream_receiving.cpp:140-174 | a delivery queues exactly one confirmation, of the last byte delivered; without a delivery nothing changes |
| Receiving.StoredBytes | aether/stream_api/safe_stream/safe_stream_receiving.cpp:93-121 | of a chunk that is no duplicate, exactly the bytes in front of all chunks that start behind it are added |
| Receiving.StoredForgets | aether/stream_api/safe_stream/safe_stream_receiving.cpp:124-131 | a chunk that lands in front of another one ends the requests for its offset, and for no other |
| Receiving.ExpectMeans | aether/stream_api/safe_stream/safe_stream_receiving.cpp:216-232 | a request is counted, on 16 bits, and queued unless the count is above the limit, which is the sign of giving up |
| Receiving.GapsAre | aether/stream_api/safe_stream/safe_stream_receiving.cpp:176-194 | the offsets asked for are those where the chunks before a stored chunk end and that one does not start |
| Receiving.MissedMeans | aether/stream_api/safe_stream/safe_stream_receiving.cpp:176-194 | all gaps are queued in order, unless the number of requests for one of them, those in this pass included, is above the limit |
| Receiving.StoredOk | aether/stream_api/safe_stream/safe_stream_receiving.cpp:93-132 | storing keeps the chunks ordered by distinct offsets within the window |
| Protocol.StepKeeps | aether/stream_api/safe_stream.cpp:123-170 | every event of the two ends and a network that loses, duplicates and reorders keeps the invariant: buffers, stored chunks and messages carry the accepted bytes of their ranges, every data message ends within last_confirmed_ + window, and the delivered bytes are the accepted ones up to the confirmed offset |
| Protocol.SenderUpdateKeeps | aether/stream_api/safe_stream/safe_stream_sending.cpp:44-51 | a sender update emits only true bytes, within the window |
| Protocol.ReceiverUpdateKeeps | aether/stream_api/safe_stream/safe_stream_receiving.cpp:37-50 | a receiver update delivers only true bytes, in order, and answers only about sent bytes |
| Protocol.DataKeeps | aether/stream_api/safe_stream/safe_stream_receiving.cpp:62-132 | arriving data is stored with its true bytes, also when it is cut |
| Protocol.ConfirmKeeps | aether/stream_api/safe_stream/safe_stream_sending.cpp:80-88 | a confirmation never drops bytes above it |
| Runs.DeliveredIsPrefixOfAccepted | aether/stream_api/safe_stream/safe_stream_receiving.cpp:62-174 | on every run the delivered bytes are a prefix of the bytes accepted by SendData |
| Runs.RunAppends | aether/stream_api/safe_stream/safe_stream_receiving.cpp:140-174 | on every run delivery only appends |
| Runs.ConfirmedIsDelivered | aether/stream_api/safe_stream/safe_stream_sending.cpp:80-88 | on every run without straddling repeats: the sender's confirmed offset never exceeds the receiver's, every block reported done was delivered whole, and data from the confirmed offset on is never taken for a duplicate |
| Runs.RepeatConfirmsDeliveredIff | aether/stream_api/safe_stream/safe_stream_receiving.cpp:76-91 | a Repeat is answered by a confirmation of delivered bytes only if and only if it does not start below and end above the confirmed offset |
| Runs.NewDataIsNotDuplicate | aether/stream_api/safe_stream/safe_stream_receiving.cpp:62-91 | data that starts at or after the confirmed offset passes the duplicate test |
| Runs.ConfirmGuardHolds | aether/stream_api/safe_stream/safe_stream_sending.cpp:80-88 | the run condition on confirmations holds by itself until something is rejected or stopped |
| Effects.DeliveryIsConfirmed | aether/stream_api/safe_stream/safe_stream_receiving.cpp:37-50 | after an update that does not give up, a confirmation is in the network if and only if it was there or queued, or something was delivered and it is of the last byte delivered |
| Effects.GapsAreAskedFor | aether/stream_api/safe_stream/safe_stream_receiving.cpp:176-214 | after such an update a position was asked for if and only if it was before, or it is time and a gap in front of a stored chunk starts there |
| Effects.GivingUpIsSilent | aether/stream_api/safe_stream/safe_stream_receiving.cpp:37-50 | an update that asks for some gap too often sends nothing, and keeps all confirmations queued |
| Effects.StepStaysQuiet | aether/stream_api/safe_stream/safe_stream_receiving.cpp:37-50 | between updates nothing is left to be asked for, and each missing offset is listed once |
| Effects.StepStaysWithin | aether/stream_api/safe_stream/safe_stream_receiving.cpp:62-91 | what the receiver holds, delivered or not, ends within the window of the sender |
| Effects.ConfirmBrings | aether/stream_api/safe_stream/safe_stream_sending.cpp:80-88 | a confirmation that arrives within the window brings the sender behind its offset |
| Effects.DeliveryReachesSender | aether/stream_api/safe_stream/safe_stream_sending.cpp:80-88 | after every run without straddling repeats and before anything is rejected or stopped: the confirmation of a delivery may arrive, and brings the sender to exactly what was delivered |
| Effects.SenderUpdateMeans | aether/stream_api/safe_stream/safe_stream_sending.cpp:44-51 | after a timeout what is written, if anything, starts at the first byte of a chunk with the least send time, without one at last_sent_offset_, and it carries the bytes accepted there |
| Effects.EveryBlockIsAccountedFor | aether/stream_api/safe_stream/safe_stream_sending.cpp:58-88 | after every run the blocks reported and then those buffered are exactly the accepted stream, in order, and every block that ends below the confirmed offset is reported |
| Effects.LastBlockIsNotDone | aether/stream_api/safe_stream/send_data_buffer.cpp:91-102 | on every run a block is reported done only when something was accepted behind it: the confirmation of its own last byte leaves it buffered |
| Blocking.BlockedForever | aether/stream_api/safe_stream/safe_stream_receiving.cpp:140-174 | once the first stored chunk starts below the confirmed offset it stays there, and nothing is ever delivered again |
| Blocking.DeliveryBlocksIff | aether/stream_api/safe_stream/safe_stream_receiving.cpp:140-174 | an unthrottled delivery blocks the receiver if and only if the run delivered ends inside the chunk stored behind it |
| Blocking.StepBlocksIff | aether/stream_api/safe_stream/safe_stream_receiving.cpp:37-174 | of all events of a run, only such a delivery blocks a receiver that is not blocked |
| Blocking.StoringKeepsDisjointIff | aether/stream_api/safe_stream/safe_stream_receiving.cpp:93-132 | storing a chunk keeps the stored chunks apart if and only if it does not start inside one of them |
| Blocking.StepKeepsDisjointIff | aether/stream_api/safe_stream/safe_stream_receiving.cpp:62-132 | an event keeps the stored chunks apart if and only if it does not bring a new chunk that starts inside a stored one |
| Blocking.NeverBlocked | aether/stream_api/safe_stream/safe_stream_receiving.cpp:62-174 | on every run on which no such chunk arrives the receiver is never blocked |
| Witnesses.StraddlingRepeatOverconfirms | aether/stream_api/safe_stream/safe_stream_receiving.cpp:76-91 | a run between two fresh ends after which the sender counts more bytes as confirmed than the receiver has delivered |
| Witnesses.OverlapBlocks | aether/stream_api/safe_stream/safe_stream_receiving.cpp:93-174 | a run between two fresh ends after which the receiver is blocked with an accepted byte not delivered |
| RefTree.IsReachable | aether/obj/ptr_management.cpp:64-80 | terminates on every finite graph and returns true if and only if a non-empty path leads to the pointer |
| RefTree.Search | aether/obj/ptr_management.cpp:64-80 | with the shared visited set, a failed search leaves a set that no path to the pointer starts in |
| Ptr.VisitObject | aether/obj/ptr_management.h:202-237 | the visitor counts each Ptr of each reachable object once, also on cycles and shared objects |
| Ptr.Walk | aether/obj/ptr.h:257-309 | the walk from the target ends with one entry for each object of its reachable set, and exact inner counts |
| Ptr.TreeIsObjectGraph | aether/obj/ptr_management.h:186-200 | in the tree of entries the same objects lead to the target as in the heap |
| Ptr.EntryTells | aether/obj/ptr.h:257-309 | an entry's two counts differ by the number of Ptrs to it from outside the reachable set |
| Ptr.SafeToDelete | aether/obj/ptr.h:257-309 | the loop over the entries says yes if and only if the target has one Ptr from outside and no other object held from outside leads to it |
| Ptr.ResetOutsideIsExact | aether/obj/ptr.h:209-233 | resetting a Ptr from outside the target's reachable set deletes the target if and only if no other Ptr from outside leads to it, directly or through the set |
| Ptr.DeletesHeldObjectIff | aether/obj/ptr.h:209-309 | for every Ptr: its reset deletes an object that another Ptr from outside still points at if and only if it is stored inside the reachable set, is not the only one, and the object looks unused |
| Ptr.SelfResetDeletesHeldObject | aether/obj/ptr.h:209-233 | a heap in which that happens |
| Ptr.Decide | aether/obj/ptr.h:209-309 | the decision of Reset: the counter is one, or the walk finds the object unused |
| PtrCascade.DeletesIffNotHeld | aether/obj/ptr.h:209-309 | in a heap without garbage, resetting a Ptr not stored in the reach of its target deletes the target if and only if it cannot be reached from a root Ptr without the one that is reset |
| PtrCascade.DeletedIsNotHeld | aether/obj/ptr.h:257-309 | garbage or not, a target deleted by such a Ptr cannot be reached from the other roots |
| PtrCascade.SweptIsExact | aether/obj/ptr.h:209-309 | after such a reset with all that follows, and without garbage before, exactly the objects are left that can be reached from the remaining roots, with all their Ptrs |
| PtrCascade.SweptOn | aether/obj/ptr.h:209-233 | the same for several resets, one after the other |
| PtrCascade.ResetAll | aether/obj/ptr.h:105-105 | the destructors of the Ptrs of a deleted object, with all that they delete in turn, terminate and leave exact counters |
| PtrCascade.PtrHeap.Reset | aether/obj/ptr.h:209-309 | terminates with exact counters and deletes each object at most once; a Ptr not stored in the reach of its target never deletes what the others hold, and without garbage it deletes all that they do not hold |
| PtrCascade.InsideDeletesHeld | aether/obj/ptr.h:257-309 | without garbage, a Ptr stored in the reach of its target that is not the only one deletes the target only while it is still held |
| PtrCascade.InsideLeaks | aether/obj/ptr.h:257-309 | a heap in which such a Ptr leaves an object that is not held any more |
| PtrCascade.PtrHeap.Copy | aether/obj/ptr.h:91-93 | the copy is counted; the counters stay exact |
| PtrCascade.PtrHeap.MoveCast | aether/obj/ptr.h:161-167 | the pointee moves, no counter changes |
| Registry.DistanceIff | aether/obj/registry.cpp:78-111 | GenerationDistance is non-negative if and only if there is a line of descent, and then is the length of one |
| Registry.MostDerived | aether/obj/domain.cpp:93-132 | the class picked from the stored ones is the one derived from all others |
| Registry.MostRelatedFactory | aether/obj/domain.cpp:93-132 | for an object of a class without derived classes the factory found is that class |
| Objects.OwnClassIsTop | aether/obj/registry.cpp:30-56 | of the classes an object is stored under, its own is derived from all others |
| Objects.GrewFromNothing | aether/obj/domain.h:60-84 | a walk from an empty visited set visits exactly the least closed set |
| Objects.ReferenceBytes | aether/obj/domain.h:413-421 | a reference is written as four bytes of its id, lowest first, and one byte of flags |
| Domain.Domain.SaveRoot | aether/obj/domain.h:203-207 | stores exactly one record for each part in the least set closed under bases and loaded references, and leaves other records alone |
| Domain.Domain.SaveNode | aether/obj/domain.h:321-369 | a part already visited is skipped; otherwise its record and those of all it leads to are added, cycles included |
| Domain.Domain.SaveRefs | aether/obj/domain.h:311-319 | saves what the loaded references lead to, and nothing for the others |
| Domain.Domain.SaveFields | aether/obj/domain.h:338-369 | the record is the fields one after the other, references as id and flags |
| Domain.Domain.LoadRoot | aether/obj/domain.h:197-201 | loads exactly the least set of parts closed under bases and references that are stored and not flagged; a root that is not stored stays unloaded; a stored one has the flags asked for, with the bit kUnloaded cleared and all others kept |
| Domain.Domain.LoadRootImpl | aether/obj/domain.h:240-259 | one object for an id: found, created with its stored class, or left unloaded when nothing is stored; a new object has the flags asked for, with the bit kUnloaded cleared and all others kept |
| Domain.Domain.LoadNode | aether/obj/domain.h:261-309 | a part is loaded once, its base first, with the fields it was saved with |
| Domain.Domain.LoadRef | aether/obj/domain.h:397-411 | a flagged reference is left unloaded with its id and flags; another one is resolved |
| Domain.Domain.LoadFields | aether/obj/domain.h:278-309 | reading a record gives the saved fields, with references resolved |
| Domain.SavedWhole | aether/obj/domain.h:311-369 | what a root is saved with has the records of all its parts |
| Domain.SaveAndLoad | aether/obj/domain.h:197-435 | saving a root and loading it into a fresh domain terminates and gives one object for each id, with its class, its data and its reference ids, for exactly the ids that unflagged saved references lead to; the root has the flags it was asked for with, with the bit kUnloaded cleared and all others kept |
| Domain.PartUnchangedIff | aether/obj/domain.h:397-421 | a saved part comes back unchanged if and only if each loaded reference in it is without flags, and each unloaded one is flagged, null or not stored |
| Domain.ReferencesChange | aether/obj/domain.h:397-421 | an object with a flag whose loaded reference comes back unloaded, and one without whose unloaded reference comes back loaded |
| Domain.ResolvedIff | aether/obj/domain.h:397-411 | a reference is read as unloaded if and only if its bit 0 or its bit 1 is set, its id is 0 or nothing is stored under it, and then keeps its id and flags |
| Domain.LoadAndSaveAround | aether/obj/domain.h:240-259 | a root loaded with kUnloadedByDefault keeps that bit, so that every loaded reference to it comes back unloaded when an object around it is saved and loaded |
| Domain.AllKeptMeansSame | aether/obj/domain.h:197-435 | when that holds for all saved parts, exactly what was saved is loaded, and all of it is unchanged |
| PackedInt.LimitsFit | aether/packed_int.h:58-100 | the limits of a level add up: its own values and the codes it lends fill what it stores, within its type |
| PackedInt.BorrowedCodes | aether/packed_int.h:58-100 | each borrowed code of a level carries a whole type of values of the next |
| PackedInt.RoundTripIff | aether/packed_int.h:215-258 | an encoded value followed by anything is read back if and only if it is below the upper limit |
| PackedInt.Canonical | aether/packed_int.h:215-244 | every byte string that is accepted is the encoding of the value read, followed by the rest |
| PackedInt.PrefixFree | aether/packed_int.h:246-258 | no encoding is the beginning of another one |
| PackedInt.StrictPrefixIsNotRead | aether/packed_int.h:215-244 | an encoding cut short is reported as not read |
| PackedInt.EncodedLength | aether/packed_int.h:246-258 | the length of an encoding is the width of the level its value belongs to |
| PackedInt.LengthGrows | aether/packed_int.h:246-304 | greater values never take fewer bytes |
| PackedInt.DocumentedRanges | aether/packed_int.h:108-112 | the documented ranges: up to 250 in one byte, up to 1514 in two, up to 1049834 in four, the rest in eight |
| PackedInt.ShortCodes | aether/packed_int.h:246-258 | the bytes of all values up to 1514 |
| MStream.SerializePacked | aether/packed_int.h:246-258 | the writer loop appends the encoding |
| MStream.DeserializePacked | aether/packed_int.h:215-244 | the reader loop reads what the decoder says, or reports that it cannot |
| MStream.RoundTrip | aether/mstream.h:127-480 | for every nesting of scalars, strings, vectors, arrays, pairs, maps, lists and pointers: a written value followed by any bytes is read back, and exactly those bytes are left |
| MStream.SizeRoundTrip | aether/mstream.h:172-188 | sizes come back, both of fixed width and packed |
| MStream.EntriesRoundTrip | aether/mstream.h:287-341 | a map with distinct keys comes back entry by entry |
| MStream.AllRoundTrip | aether/mstream.h:210-236 | a container comes back element by element |
| MStream.PointerBytes | aether/mstream.h:426-480 | an empty pointer is the byte 0, any other one the byte 1 and its value; on reading every first byte but 0 announces a value |
| StreamMaps.FirstEntryWins | aether/mstream.h:287-341 | of entries with equal keys the first one is read, and all keys read are different |
| StreamCuts.CutReads | aether/mstream.h:127-480 | for every nesting of all types and every cut: where reading stands behind the value, and whether it noticed |
| StreamCuts.CutNoticed | aether/mstream.h:127-480 | for every nesting without pairs and maps: a value whose bytes are cut anywhere is reported as not read |
| StreamCuts.PairCutUnnoticedIff | aether/mstream.h:343-352 | a pair of any values that is cut goes unnoticed if and only if the cut is in the first and the second can be read from what that leaves, or the cut is in the second and that does not notice |
| StreamCuts.ScalarAfterCutIff | aether/mstream.h:343-352 | for a scalar in second place: if and only if the cut is in the first and leaves at least the bytes of the scalar |
| StreamCuts.SequenceCutUnnoticedIff | aether/mstream.h:210-236 | a vector or list of any values, cut within value i, goes unnoticed if and only if that value does not notice and all later ones can be read from what it leaves |
| StreamCuts.ScalarPairsCutIff | aether/mstream.h:210-236 | for a vector of pairs of scalars, cut m bytes into pair i: if and only if m is less than a first part and enough for the second parts of this and all later pairs |
| StreamCuts.MapCutUnnoticedIff | aether/mstream.h:287-341 | a map of any keys and values, cut within entry i, goes unnoticed if and only if that entry, read as a pair, does not notice and all later ones can be read from what it leaves |
| StreamCuts.ScalarEntriesCutIff | aether/mstream.h:287-341 | for scalar keys and values, cut m bytes into entry i: if and only if m is less than a key and enough for the values of this and all later entries |
| StreamCuts.CutWitness | aether/mstream.h:343-352 | a pair of which one byte of three is read without an error |
| StreamCuts.CutMapWitness | aether/mstream.h:287-341 | a map for which that happens |
| MStream.WriteValue | aether/mstream.h:127-480 | the operators << append the encoding |
| MStream.ReadValue | aether/mstream.h:127-480 | the operators >> read as the decoder does, for every byte string |
| MStream.ReadEntries | aether/mstream.h:287-341 | reading a map inserts keys once and stops at a failed read |
| MStream.VectorReader.ReadInto | aether/mstream_buffers.h:45-68 | fills the target with the next bytes and leaves the rest, or leaves both the target and the stream as they were |
| ApiProtocol.ParsePackedAll | aether/api_protocol/packet_builder.h:81-90 | for any sequence of sendable messages, parsing the packet dispatches exactly that sequence in order |
| ApiProtocol.ParsePacked | aether/stream_api/safe_stream/safe_stream_api.h:34-110 | one packed message followed by anything is dispatched, and the rest is left |
| ApiProtocol.MessageBytes | aether/stream_api/safe_stream/safe_stream_api.h:34-110 | the bytes of every message: codes 2 to 8, numbers lowest byte first, data behind its size |
| ApiProtocol.UnknownCodeIsSkipped | aether/api_protocol/api_protocol.cpp:35-41 | a code other than 2 to 8 in front of any packet changes nothing of what is dispatched |
| ApiProtocol.CutPacketIff | aether/api_protocol/api_protocol.cpp:35-41 | a packet cut anywhere dispatches its whole messages and nothing else if and only if the cut is where a message ends; otherwise one message more with the code of the message cut, and then exactly what the bytes left unread by that one are parsed as |
| ApiProtocol.CutSendData | aether/stream_api/safe_stream/safe_stream_api.cpp:20-47 | every Send cut within its data is dispatched with its offset and full length, but zeros for data, and its data is then parsed as messages |
| ApiProtocol.CutConfirm | aether/stream_api/safe_stream/safe_stream_api.cpp:20-47 | every Confirm cut within its offset is dispatched as a Confirm of 0, and the low byte of the offset is then parsed as messages |
| ApiProtocol.RepeatCutUnnoticedIff | aether/stream_api/safe_stream/safe_stream_api.h:34-110 | reading a Repeat that is cut reports no error if and only if it ends with the low byte of its count or of its offset, and that byte is 0 |
| ApiProtocol.CutSend | aether/stream_api/safe_stream/safe_stream_api.cpp:20-47 | every Send cut behind its code is dispatched as a Send of no data at offset 0 |
| ApiProtocol.ParsePacket | aether/api_protocol/api_protocol.cpp:35-41 | terminates on every byte string and dispatches what the parser function says |
| ApiProtocol.ParseTurn | aether/stream_api/safe_stream/safe_stream_api.cpp:20-47 | one code is read and its message dispatched; an unknown code is skipped |
| ApiProtocol.PackPacket | aether/api_protocol/packet_builder.h:81-90 | the packet is the messages one after the other |
| BufferGate.RunsKeepOrderAndBound | aether/stream_api/buffer_gate.cpp:91-176 | after every run the passed-on writes are a subsequence of the accepted ones in order; each accepted write is passed on, waiting or was dropped unsent; with a bound above zero the buffer holds at most the bound and the gate is soft-writable if and only if it holds less, with a bound of zero it is always soft-writable |
| BufferGate.ZeroIsNoBound | aether/stream_api/buffer_gate.cpp:91-126 | with a bound of zero the buffer grows to any size |
| BufferGate.StepKeeps | aether/stream_api/buffer_gate.cpp:91-176 | each event keeps order and bound |
| BufferGate.BufferGate.Write | aether/stream_api/buffer_gate.cpp:91-126 | a write is declined, without any change, if and only if the buffer is full; otherwise it comes last in the order of all passed on and waiting writes. It is passed on at once if the gate below is linked and writable and the buffer is empty, and otherwise is the last entry of the buffer, unsent |
| BufferGate.BufferGate.RemoveAction | aether/stream_api/buffer_gate.cpp:91-126 | a finished write makes room; the order only loses it when it was not sent, and nothing waits if the gate below is still writable; exactly the ticket of an unsent write is dropped |
| BufferGate.BufferGate.UpdateGate | aether/stream_api/buffer_gate.cpp:148-163 | the order of writes does not change, nothing is dropped; a gate below that is linked and writable is given the writes that wait, from the first on, up to the one that makes it refuse the next, and another one nothing |
| BufferGate.BufferGate.DrainBuffer | aether/stream_api/buffer_gate.cpp:165-176 | the order of writes does not change; a writable gate below is given the writes that wait, from the first on, up to the one that makes it refuse the next |
| BufferGate.SendWaiting | aether/stream_api/buffer_gate.cpp:165-176 | sends the unsent entries in order until the gate below is not writable any more |
| BufferGate.SendingMovesItems | aether/stream_api/buffer_gate.cpp:165-176 | draining moves entries from waiting to passed on and changes neither order nor content |
| BufferGate.DrainMeans | aether/stream_api/buffer_gate.cpp:165-176 | exactly which of the waiting writes are passed on, and when the gate below is still writable afterwards |
| BufferGate.WriteMeans | aether/stream_api/buffer_gate.cpp:91-126 | when a write is passed on, buffered or declined, and that nothing else changes |
| BufferGate.RunsWaitBehindSent | aether/stream_api/buffer_gate.cpp:91-176 | after every run, a write that waits although the gate below is linked and writable waits behind one that was passed on and is not finished |
| BufferGate.WaitsThoughReadyIff | aether/stream_api/buffer_gate.cpp:91-176 | an event leaves such a write if and only if it is a write to a gate below that is ready, behind others in the buffer |
| BufferGate.SecondWriteWaits | aether/stream_api/buffer_gate.cpp:91-126 | a run after which that is so |
| ActionRegistry.ErasedExactly | aether/actions/action_registry.cpp:25-73 | after every run each counter is the number of live shares plus overwritten ones, no live share refers to an erased entry, and an entry is gone if and only if both are zero |
| ActionRegistry.StepKeeps | aether/actions/action_registry.cpp:25-93 | each operation on shares keeps all counters exact |
| ActionRegistry.OverwritingLeaks | aether/actions/action_registry.cpp:53-73 | whatever follows a copy or move assignment over a share, the entry it was on is never erased |
| ActionRegistry.RunKeepsActions | aether/actions/action_registry.cpp:75-93 | on every run an entry that is still there holds the action it had, or none if and only if it was erased through a share on it |
| ActionRegistry.GoneIsGone | aether/actions/action_registry.cpp:25-73 | an entry that was erased never comes back |
| ActionRegistry.ActionRegistry.RegisterAction | aether/actions/action_registry.h:62-66 | makes an entry that no other share is on, changes no other entry, and keeps all counters exact |
| ActionRegistry.ActionRegistry.CopyShare | aether/actions/action_registry.cpp:31-36 | the copy joins the shares on the entry, and all counters stay exact |
| ActionRegistry.ActionRegistry.MoveShare | aether/actions/action_registry.cpp:38-41 | the new share takes the place of the old one on the entry, no entry changes, and all counters stay exact |
| ActionRegistry.ActionRegistry.AssignCopy | aether/actions/action_registry.cpp:53-63 | the entry the share was on stays, whoever else is on it, and all counters stay exact with the overwritten share |
| ActionRegistry.ActionRegistry.AssignMove | aether/actions/action_registry.cpp:65-73 | the same for a move |
| ActionRegistry.ActionRegistry.DestroyShare | aether/actions/action_registry.cpp:43-51 | the entry is gone afterwards if and only if no share is left on it and none on it was overwritten; all counters stay exact |
| ActionRegistry.ActionRegistry.EraseAction | aether/actions/action_registry.cpp:89-93 | no share on the entry finds the action any more, no share loses its entry, and all counters stay exact |
| Crc32.TableIsRemainder | aether/crc.h:61-106 | each of the 256 entries is its index after eight single-bit steps of division by 0xEDB88320 |
| Crc32.ByteIsEightSteps | aether/crc.h:158-181 | an update with the table is eight single-bit steps |
| Crc32.UpdateIsDivision | aether/crc.h:158-181 | for every message and start the register is the one of feeding the bits of the message, lowest first, one at a time |
| Crc32.UpdateConcat | aether/crc.h:158-181 | a concatenation is two chained updates |
| Crc32.FormsAgree | aether/crc.h:148-181 | on text without NUL the literal, the string and the buffer form give the same register |
| Crc32.LiteralIsUpdate | aether/crc.h:108-151 | the recursion of from_literal leaves out the NUL at the end, also of the empty literal |
| Crc32.FromString | aether/crc.h:158-168 | the loop over a string updates with the characters before the first NUL; a null pointer changes nothing |
| Crc32.FromBuffer | aether/crc.h:170-181 | the loop over a buffer updates with all its bytes; a null pointer changes nothing |
| Crc32.KnownChecksums | aether/crc.h:195-200 | the three checksums that the source states |

## Left out

- Positions beyond one turn of the 16-bit ring: SafeStream runs are proved without wrap-around; the ring steps themselves are proved with it.
- Progress: that data is delivered at all needs a fair network; only safety is proved.
- SendBuffer.SendDataBuffer.Stop: does not model the live state of a block (waiting or sending) and so not the refusal to stop a block that is being sent, because the blocks of the model are the data alone.
- References into lists kept across changes of the list in Register and SendData: the lists are sequences of values.
- Empty data given to SendData: it has an end before its start, and is excluded from runs.
- Packets that end too early, in runs: messages arrive whole or not at all, so the empty data, the zeros for data and the confirmations that such a packet makes up are excluded from runs.
- MStream.ReadValue: reads into fresh targets, because the library default-constructs what it reads; a failed read into a target with earlier content, which is left as it was, is stated for raw reads only.
- PtrCascade.PtrHeap.Reset: does not model a second Reset of the same Ptr, because the method stands for the end of life of one Ptr, nor Ptrs that an object does not show to the visitor, because these are roots to the code.
- PtrView and its manage counter, and overflow of the 16-bit counters of Ptr.
- Versioned Load and Save, LoadCopy and the version part of storage keys: every class has one current version.
- Domain.Domain.SaveNode: the record of a base is made before the fields of the part, wherever the base is listed, because each goes to a record of its own.
- Objects: references stand alone or in one counted list; other containers of references are not modelled. Visiting nested plain structures is the same as listing their fields.
- Registry.MostDerived: the sort is modelled by picking its last element with the same comparison, because only that one is used. The rank of a class stands for the classes being free of cycles.
- MStream.ReadAll: does not model a 32-bit loop counter running against a larger size, nor fixed arrays without elements.
- Durations, time points, optional values and variants in streams; requests with return values and nested packets of the API protocol.
- ApiProtocol.ParseTurn: an unknown code is skipped, as in builds without assertions, which otherwise abort.
- Crc32.FromBuffer: does not model the 32-bit index of the loop, which never ends on buffers of 4 GiB and more.
- The gates, crypto, DNS, transports, pollers, registration, cloud and client actions, telemetry and fixed-point numbers.
