# Verified model of the DSP acceleration pipeline

This project models the lock-free part of the Linux Universal DSP Acceleration framework and proves
what it guarantees over whole runs. `dafny verify dfyconfig.toml` checks everything.

The model has two layers that share their definitions.

* **Classes** follow the source one call at a time: the shared-memory ring in its modulo and bit-mask
  forms (`Ring`), the plugin SDK (`Sdk`), the stall detector (`Watchdog`), the worker and its Vulkan
  backend (`Worker`), the buffer pool (`HandlePool`), the network node and the echo server
  (`RemoteNode`). Each method is proved against a function of the old state. A pointer into a ring is
  the index of the slot.
* **Step machines** interleave the atomic steps of the parties: producer and consumer of a ring under
  stale loads, with in-place work on the slots (`SpscProtocol`), plugin and worker (`Pipeline`), plugin
  and worker on the memory bus (`MemoryBus`), sender, network, server and jitter buffer (`RemotePath`).
  A run is any legal sequence of steps, and the theorems hold of every state any run reaches.

`SpscCalls`, `PipelineProgress` and `PipelineCalls` join the two: the step that begins a call and then
steps of that call only have the effect that the class method promises, by the same specification.

`Frame`, `Control`, `SlotQueue`, `Selection`, `Bits`, `Base` and `SharedMemory` hold the records and the
reasoning the rest shares. `PipelineProof` keeps the pipeline's invariant; `PipelineTheorems`,
`PipelineProgress`, `RemoteOrder`, `MemoryCalls`, `MemoryReturns`, `MemoryFooling` and `MemoryProgress`
state what follows from the invariants.

## What the proofs found

The code is modelled as it is. These facts differ from what its documentation suggests.

* `RemoteDspNode::init` spends id 0 on its handshake, the server answers that with a keep-alive, and the
  jitter buffer waits for id 0. After `init` nothing is offered to `out_queue` until the 32-bit ids have
  come round: exactly until the echo of an audio packet whose number is a positive multiple of 2^32 has
  arrived (`RemoteOrder.HandshakeHoldsStreamForOneCycle`). A control packet holds up the stream in the
  same way (`RemotePath.NonAudioPacketHoldsStream`).
* Frames that arrive while the stream is held up stay in their slots, and are offered as soon as the
  missing id arrives, 2^32 packets late. So the frames can be out of order although no packet is delayed,
  lost or duplicated: after `init`, the run of `RemoteOrder.OrderFailsWithoutDelay` offers packet 2^32 and
  then packet 1. The order holds exactly when, each time the missing id arrives, neither its echo nor one
  still in a slot that it sets free is of an earlier id cycle than the frame offered before it
  (`RemoteOrder.InSendingOrderExactlyWhen`). What every run keeps is that the frame at position i is that
  of a received packet with the id of i (`RemotePath.OffersReceivedFrames`).
* The worker serves one frame per wakeup, but an eventfd read takes all pending signals at once. Every
  merged signal leaves one frame in `in_queue` for good, as does every signal that cannot be sent.
  Merging alone costs at most fourteen frames, so that the plugin goes on with up to fourteen frames of
  added latency (`PipelineProgress.MergingAloneLosesAtMostFourteen`, `PipelineProgress.MergingLoses`).
  A fifteenth loss takes a failed write to the eventfd, which is non-blocking (daemon/main.cpp:115) and
  so refuses a signal only when its counter would overflow or its descriptor is bad. From then on no
  frame is ever dispatched again (`PipelineProgress.AnotherFrameExactlyWhen`,
  `PipelineProgress.JamIsReachable`).
* `dsp_accel_sdk_dispatch` never writes `instance_id`, which docs/ipc_protocol.md calls critical: every
  frame carries 0 (`PipelineTheorems.EveryFrameHasInstanceZero`).
* `dsp_accel_sdk_dispatch` clamps its counts from above only, and `dsp_accel_sdk_read_output` ignores its
  frame count. Their copies go out of bounds exactly when `Frame.CopiesFitExactlyWhen` and
  `Frame.ReadFitsExactlyWhen` say. A dispatch without channels copies nothing, but with a negative frame
  count it publishes a count that no slot can have (`Frame.ValidArgsExactlyWhen`).
* With bypass on, the worker imports the segment once per turn and never releases an import, so the pool
  of 255 handles fills up (`HandlePool.BypassFillsThePool`, `HandlePool.ImportsAreNeverReleased`).
* A FREE of a handle the plugin does not own can take away an instance's state buffer
  (`HandlePool.FreeIsSafeExactlyWhen`, `HandlePool.FreeingAStateHandleSharesIt`). A plugin that frees
  only its own handles is safe (`MemoryCalls.PluginKeepsHandlesApart`).
* Request ids come from `rand()` and FREE always uses 0. An upload can end on the response to another
  request exactly when it draws an id that is still outstanding; an allocation, exactly when an
  outstanding request of its id has succeeded or still can (`MemoryFooling.UploadCanBeFooledExactlyWhen`,
  `MemoryFooling.AllocationCanBeFooledExactlyWhen`, `MemoryFooling.ZeroIdUploadIsDishonest`).
* A control event can miss the frame dispatched right after it, but never the one after that. It is
  missed exactly when it was pushed after the worker last found the bus empty before that frame
  (`PipelineTheorems.FrameMissesExactlyLaterEvents`, `PipelineTheorems.FrameMayMissItsOwnEvent`,
  `PipelineTheorems.EventsMissAtMostOneFrame`).

## Assumptions

* One plugin per worker, and `RemoteDspNode` never shares an `out_queue` with a worker: each ring has one
  producer and one consumer.
* An eventfd is a counter. A wait on it succeeds exactly when it is positive, and the read that follows
  returns the count and clears it. Sending a signal may fail.
* Where a call would go out of bounds, the model stops: `Sdk.Outcome.OutOfBounds`. The pipeline machine
  has only calls that stay in bounds.
* A processing stage is an arbitrary function of the parameters and the valid samples. In the pipeline it
  may change the unused samples of its slot at will. Where a theorem says that the worker can go on
  (`InPlace`), the block the stage leaves has at most 256 frames and 8 channels.
* Device calls, failed system calls, clocks and random ids are parameters.

## Model

| member | source | states |
|---|---|---|
| Ring.PushAppends | daemon/ipc/include/ipc_shm.hpp:68-77 | push succeeds exactly when fewer than Capacity - 1 items are queued, and then appends the item |
| Ring.PopRemovesOldest | daemon/ipc/include/ipc_shm.hpp:79-87 | pop yields the oldest item exactly when the queue is not empty, and leaves the rest in order |
| Ring.ShmSPSCRingBuffer.constructor | daemon/ipc/include/ipc_shm.hpp:36-41 | a new ring is empty and zeroed |
| Ring.ShmSPSCRingBuffer.PushItem | daemon/ipc/include/ipc_shm.hpp:68-77 | the queue grows by the item or is unchanged; exact effect on head, tail and data |
| Ring.ShmSPSCRingBuffer.PopItem | daemon/ipc/include/ipc_shm.hpp:79-87 | the oldest item leaves the queue; refused exactly on an empty queue |
| Ring.ShmSPSCRingBuffer.PeekRead | daemon/ipc/include/ipc_shm.hpp:45-49 | the slot returned holds the oldest item; null exactly when empty |
| Ring.ShmSPSCRingBuffer.CommitRead | daemon/ipc/include/ipc_shm.hpp:51-54 | retires exactly the oldest item |
| Ring.ShmSPSCRingBuffer.ReserveWrite | daemon/ipc/include/ipc_shm.hpp:56-61 | null exactly when Capacity - 1 items are queued |
| Ring.ShmSPSCRingBuffer.CommitWrite | daemon/ipc/include/ipc_shm.hpp:63-66 | publishes the reserved slot as the newest item |
| Ring.ShmSPSCRingBuffer.IsEmpty | daemon/ipc/include/ipc_shm.hpp:89-91 | true exactly on an empty queue |
| Ring.WriteAtTail | daemon/ipc/include/ipc_shm.hpp:56-61 | writing into the reserved slot changes no queued item |
| Ring.WriteAtHead | daemon/ipc/include/ipc_shm.hpp:45-49 | working in place on the peeked slot changes the oldest item only |
| Ring.StaticAssertMeansPowerOfTwo | Linux_DSP_accelleration.hpp:55 | the static assertion admits exactly the powers of two |
| Ring.MaskIsRemainder | Linux_DSP_accelleration.hpp:70 | a bitwise and with 2^k - 1 is the remainder modulo 2^k, for every k |
| Ring.MaskSuccessor | Linux_DSP_accelleration.hpp:68-87 | for every capacity that compiles, the masked successor is the modulo successor |
| Ring.MaskSPSCRingBuffer.constructor | Linux_DSP_accelleration.hpp:59-64 | a new bit-mask ring has the modulo ring's initial members |
| Ring.MaskSPSCRingBuffer.PushItem | Linux_DSP_accelleration.hpp:68-77 | the bit-mask push has exactly the modulo push's result and effect |
| Ring.MaskSPSCRingBuffer.PopItem | Linux_DSP_accelleration.hpp:79-87 | the bit-mask pop has exactly the modulo pop's result and effect |
| Ring.Lockstep | Linux_DSP_accelleration.hpp:68-87 | over every sequence of operations both rings give the same results and keep the same head, tail and data |
| SpscProtocol.FullTestIsExact | daemon/ipc/include/ipc_shm.hpp:56-73 | for every head value a stale acquire load may return, the full test of push and reserve_write holds exactly when Capacity - 1 items were queued then |
| SpscProtocol.EmptyTestIsExact | daemon/ipc/include/ipc_shm.hpp:45-83 | for every tail value a stale acquire load may return, the empty test of pop and peek_read is exact for it |
| SpscProtocol.ReadIsDetermined | daemon/ipc/include/ipc_shm.hpp:45-84 | of all slot writes the memory model lets the consumer see, only the newest one is possible, and it is the front of the queue |
| SpscProtocol.NoSlotRace | daemon/ipc/include/ipc_shm.hpp:45-84 | the slot the producer has reserved is never the slot the consumer has peeked |
| SpscProtocol.StepRefines | daemon/ipc/include/ipc_shm.hpp:45-87 | every atomic step of the copying and the zero-copy calls, and every in-place write, keeps the invariant and is silent or one legal move of a bounded queue |
| SpscProtocol.RefinesBoundedFifo | daemon/ipc/include/ipc_shm.hpp:45-87 | every interleaving under every choice of stale loads is a run of a FIFO bounded by Capacity - 1 whose front may be reworked |
| SpscProtocol.ItemsArriveOnceInOrder | daemon/ipc/include/ipc_shm.hpp:27-30 | items come out once each, at most Capacity - 1 being under way; without in-place work the popped items are a prefix of the pushed ones |
| SpscCalls.MembersHoldQueue | daemon/ipc/include/ipc_shm.hpp:45-87 | in every reachable state of the step machine the ring's three members hold exactly the abstract queue |
| SpscCalls.PushRun | daemon/ipc/include/ipc_shm.hpp:68-77 | the first step of push and then its own steps only have exactly the result and effect of the call |
| SpscCalls.PopRun | daemon/ipc/include/ipc_shm.hpp:79-87 | the first step of pop and then its own steps only have exactly the result and effect of the call |
| RemoteNode.DrainIsBounded | daemon/network_node.hpp:118-124 | the drain turns once per mask bit it clears, at most 32 times, and ends on an empty slot |
| RemoteNode.ServeExactly | daemon/network_server_node.hpp:46-80 | audio is answered by the processed frame under the same id, a handshake by a keep-alive of the same id, and nothing else or under a wrong magic is answered |
| RemoteNode.RemoteDspNode.constructor | daemon/network_node.hpp:24-33 | ids start at 0 with an empty window |
| RemoteNode.RemoteDspNode.SetShmPtr | daemon/network_node.hpp:143 | the segment's queue is installed; the window and the queue's contents stay |
| RemoteNode.RemoteDspNode.SendPacket | daemon/network_node.hpp:71-95 | every packet kind takes the next id of one counter, which wraps at 2^32 |
| RemoteNode.RemoteDspNode.HandlePacket | daemon/network_node.hpp:103-125 | one datagram updates the window and offers frames exactly as store-then-drain says; every other packet changes nothing |
| RemoteNode.RemoteDspNode.DrainReady | daemon/network_node.hpp:118-124 | the inner loop meets the recursive drain and pushes what it offers, losing frames on a full queue |
| RemoteNode.RemoteDspNode.OfferExpected | daemon/network_node.hpp:119-123 | one drain turn offers the expected frame and moves the window by one |
| RemoteNode.NetworkServerNode.HandleDatagram | daemon/network_server_node.hpp:46-80 | audio is echoed as audio under the same id with the processed frame; a handshake is answered by a keep-alive of the same id; nothing else is answered |
| RemotePath.WindowTestIsExact | daemon/network_node.hpp:110-112 | the signed 32-bit test is true exactly for the packets that have the id of one of the 32 window positions |
| RemotePath.FullCycleDelayIsAccepted | daemon/network_node.hpp:110-112 | a packet 2^32 ids late is accepted as the expected one |
| RemotePath.StoreKeepsWindow | daemon/network_node.hpp:108-116 | storing keeps the correspondence of slots and positions and overwrites no other live slot |
| RemotePath.AdvanceKeepsWindow | daemon/network_node.hpp:119-123 | moving the window keeps it too, across the 2^32 wrap |
| RemotePath.DrainMovesFrontier | daemon/network_node.hpp:118-124 | the drain offers the accepted frames from the frontier on and stops at the first missing one |
| RemotePath.ReceiveKeepsWindow | daemon/network_node.hpp:106-124 | a received frame leaves window, frontier and offered stream in agreement |
| RemotePath.StepKeepsInv | daemon/network_node.hpp:66-131 | every send, echo and delivery keeps the end-to-end invariant |
| RemotePath.OffersReceivedFrames | daemon/network_node.hpp:66-131 | on every run the frame offered at position i is the processed frame of a received audio packet with the id of i |
| RemotePath.FrontierIsFirstGap | daemon/network_node.hpp:111-124 | on every run the frontier is the least position never accepted, and its slot is empty |
| RemotePath.StreamMovesExactlyWhen | daemon/network_node.hpp:111-124 | on every run receiving an echo moves the stream on if and only if it is audio with the id of the frontier |
| RemotePath.NonAudioPacketHoldsStream | daemon/network_node.hpp:133-136 | a control or handshake packet holds the stream at its position until a packet a whole number of id cycles away has been received as audio |
| RemoteOrder.HandshakeHoldsStreamForOneCycle | daemon/network_node.hpp:54-64 | on every run after init, something has been offered exactly when the echo of an audio packet numbered a positive multiple of 2^32 has arrived, and never within the first 2^32 packets |
| RemoteOrder.OfferedExactlyWhenIdZeroArrived | daemon/network_node.hpp:106-124 | on every run something has been offered exactly when the echo of an audio packet numbered a multiple of 2^32 has arrived |
| RemoteOrder.OrderFailsWithoutDelay | daemon/network_node.hpp:54-124 | a run after init without delay, loss or duplication that offers packet 2^32 and then packet 1 |
| RemoteOrder.InSendingOrderExactlyWhen | daemon/network_node.hpp:66-131 | on every run the offered frames are in sending order, each once, if and only if, whenever the missing id arrived, neither its echo nor one in a slot it set free was of an earlier id cycle than the one before it |
| RemoteOrder.TimelyRunsKeepOrder | daemon/network_node.hpp:66-131 | while no packet is received 2^32 - 31 or more behind the frontier or 2^32 ahead of it, the offered frames are those of the first packets sent, all audio, in order |
| RemoteOrder.WindowTestOnTimely | daemon/network_node.hpp:110-112 | on such a packet the test says exactly whether its number is in the window |
| HandlePool.FirstFree | daemon/vulkan/vulkan_compute.c:346-354 | the scan yields the lowest inactive slot above 0, or 0 when there is none |
| HandlePool.Claim | daemon/vulkan/vulkan_compute.c:343-397 | a claim yields the lowest free handle; it fails exactly when the pool is full or the device fails, and then changes nothing |
| HandlePool.ClaimCounts | daemon/vulkan/vulkan_compute.c:343-397 | a successful device claims exactly when fewer than 255 handles are live, and one more is live then |
| HandlePool.Release | daemon/vulkan/vulkan_compute.c:399-405 | exactly the named slot is dead afterwards; every other slot and all sizes stay |
| HandlePool.AllocationExactly | daemon/worker.cpp:95-97 | with a working device and a free slot the plugin comes to hold the lowest free handle, of the size asked for; otherwise nothing changes |
| HandlePool.FreeExactly | daemon/worker.cpp:101-103 | the handle is dead and no longer the plugin's; nothing else changes |
| HandlePool.StateBufferExactly | daemon/worker.cpp:70-77 | an unseen instance gets a buffer of 1024 bytes, whatever bypass is, exactly when the device works and fewer than 255 handles are live, and 0 otherwise; a seen one keeps its own |
| HandlePool.BypassExactly | daemon/worker.cpp:104-110 | afterwards an import is in use exactly when bypass was enabled on a good descriptor, the device works and a slot was free; it is a new one, and otherwise nothing but that changes |
| HandlePool.BypassStaysOff | daemon/worker.cpp:79-84 | once off, bypass stays off over every run without an enabling call |
| HandlePool.VulkanContext.AllocateBuffer | daemon/vulkan/vulkan_compute.c:343-397 | the in-place pool follows the claim |
| HandlePool.VulkanContext.FreeBuffer | daemon/vulkan/vulkan_compute.c:399-405 | a bad or inactive handle changes nothing; otherwise exactly that slot is freed |
| HandlePool.VulkanContext.UploadBuffer | daemon/vulkan/vulkan_compute.c:407-417 | succeeds exactly on a live handle with a working map; the buffer then starts with the data and no other buffer changes |
| HandlePool.VulkanContext.ImportShm | daemon/vulkan/vulkan_compute.c:419-471 | an import claims from the same pool; a bad descriptor claims nothing |
| HandlePool.ActKeepsDisjoint | daemon/worker.cpp:73-109 | every pool operation keeps plugin, state and import handles disjoint and exactly the live ones |
| HandlePool.HandlesStayDisjoint | daemon/worker.cpp:73-109 | over every run whose FREEs name no state and no import handle, the three kinds stay disjoint, no two instances share a state buffer, and an instance keeps its handle |
| HandlePool.FreeingOwnHandlesIsDisciplined | sdk/src/dsp_accel_sdk.cpp:373-378 | freeing only handles one was issued meets the discipline |
| HandlePool.FreeIsSafeExactlyWhen | daemon/worker.cpp:313-316 | a FREE keeps the kinds disjoint exactly when it names no state and no import handle |
| HandlePool.FreeingAStateHandleSharesIt | daemon/worker.cpp:313-316 | a concrete run in which the plugin is given an instance's state buffer |
| HandlePool.BypassFillsThePool | daemon/worker.cpp:104-110 | n turns with bypass on take the live count from a to min(255, a + n); the handle is 0 exactly once a + n exceeds 255 |
| HandlePool.ImportsAreNeverReleased | daemon/worker.cpp:104-110 | over every disciplined run, with bypass turned off and on at will, each import keeps its handle live and neither the plugin nor an instance gets it |
| MemoryBus.RefinesSequentialAllocator | daemon/worker.cpp:297-319 | for any interleaving the responses are, in order, the results of one sequential allocator less the lost ones, and one is lost exactly when 31 were waiting or the load of its push was stale |
| MemoryBus.ServedExactly | daemon/worker.cpp:300-317 | the response to each kind of request and what it does to the pool: success exactly with a free slot, on a live handle, or always |
| MemoryReturns.CallsReturnFirstAnswer | sdk/src/dsp_accel_sdk.cpp:326-371 | on every run each call that sent a request waits, or has returned exactly what the first answer it saw says, or failure after 500 polls without one |
| MemoryReturns.HeldExactly | sdk/src/dsp_accel_sdk.cpp:326-378 | on every run the plugin holds exactly the handles it was returned and has not freed since |
| MemoryReturns.SentExactlyWhen | sdk/src/dsp_accel_sdk.cpp:326-378 | a request is sent exactly when fewer than 31 wait and the load is not stale; otherwise the call is over at once |
| MemoryCalls.SuccessIsHonest | sdk/src/dsp_accel_sdk.cpp:326-371 | as long as no call draws an outstanding id, a successful call has the result of its own request, with the size, handle and length it was called with, and for an upload the worker copied exactly the bytes passed in |
| MemoryCalls.ResponseIsOwn | sdk/src/dsp_accel_sdk.cpp:337-366 | then a response bearing the waiting call's id is the result of its request |
| MemoryFooling.UploadCanBeFooledExactlyWhen | sdk/src/dsp_accel_sdk.cpp:351-369 | some continuation ends the upload on the response to another request if and only if its id is outstanding when the request is sent |
| MemoryFooling.AllocationCanBeFooledExactlyWhen | sdk/src/dsp_accel_sdk.cpp:326-343 | some continuation ends the allocation on the response to another request if and only if a live request of its id has succeeded or still can on the pool |
| MemoryFooling.ZeroIdUploadIsDishonest | sdk/src/dsp_accel_sdk.cpp:351-376 | a run in which an upload with id 0 succeeds on the response of a FREE |
| MemoryProgress.CallSucceedsExactlyWhen | sdk/src/dsp_accel_sdk.cpp:326-371 | a call under a clear id can return success in some continuation if and only if a slot is or will be free, or the upload's handle is in range |
| MemoryProgress.AllocationYieldsNewHandle | sdk/src/dsp_accel_sdk.cpp:326-343 | under the rules for ids and handles such an allocation can return a live handle of the size asked for that is new to the plugin and held from then on |
| MemoryProgress.FreeTakesEffect | sdk/src/dsp_accel_sdk.cpp:373-378 | a FREE that is sent can be carried out, and then its handle is dead |
| MemoryCalls.PluginKeepsHandlesApart | sdk/src/dsp_accel_sdk.cpp:326-378 | over every run in which the plugin draws no outstanding id and frees only handles it was returned and has not freed, all handles stay disjoint and what it holds stays live |
| Watchdog.TrailingRunStep | sdk/src/dsp_accel_sdk.cpp:184-189 | an unchanged observation extends the run of repeats, a changed one ends it |
| Watchdog.HeartbeatMonitor.constructor | sdk/src/dsp_accel_sdk.cpp:147-149 | the trace starts with the heartbeat at connect time |
| Watchdog.HeartbeatMonitor.Check | sdk/src/dsp_accel_sdk.cpp:183-194 | the count is the trailing run of unchanged heartbeats modulo 2^32; the call is refused exactly when that exceeds 10; a change clears it |
| Watchdog.CheckAll | sdk/src/dsp_accel_sdk.cpp:181-194 | over fewer than 2^32 calls, refused exactly at a trailing run longer than 10 |
| Control.LastEventWins | daemon/worker.cpp:87-93 | after any sequence of events each parameter has the value of the last event that names it, and its old value if none does |
| Control.LastValue | daemon/worker.cpp:87-93 | the value of the last event for a parameter, and none exactly when no event names it |
| Control.ToUint32 | daemon/worker.cpp:92 | the algorithm id is the value of its event rounded down |
| Frame.ClampHoldsExactlyWhen | sdk/src/dsp_accel_sdk.cpp:196-198 | the clamp bounds a count exactly when it is not negative |
| Frame.PayloadExactly | daemon/ipc/include/ipc_shm.hpp:16-24 | what a frame means, count by count and sample by sample |
| Frame.ClampedBlockExactly | sdk/src/dsp_accel_sdk.cpp:196-218 | a dispatch publishes its clamped counts, its own clock reading and its samples |
| Frame.ReadChannelsExactly | sdk/src/dsp_accel_sdk.cpp:276-279 | a read takes the block's channels but no more than asked for, and all of them when asked for a negative number |
| Frame.ReadFitsGenerally | sdk/src/dsp_accel_sdk.cpp:276-279 | the copy stays in bounds exactly when every channel that is read has a buffer long enough |
| Frame.CopiesFitExactlyWhen | sdk/src/dsp_accel_sdk.cpp:196-218 | the copies of dispatch stay in bounds exactly with no channels, or with no negative count and long enough buffers |
| Frame.ValidArgsExactlyWhen | sdk/src/dsp_accel_sdk.cpp:196-218 | the one call whose copies fit and that still publishes a count no slot can have is that without channels and with a negative frame count |
| Frame.ReadFitsExactlyWhen | sdk/src/dsp_accel_sdk.cpp:274-279 | a copy into buffers of the caller's frame count stays inside them exactly when the waiting block is not longer, or nothing is copied |
| Frame.PutChannelFills | sdk/src/dsp_accel_sdk.cpp:214-218 | writing one stride-256 channel keeps the channels already written; all indices stay below 2048 |
| Frame.FilledIsPayload | sdk/src/dsp_accel_sdk.cpp:208-218 | a slot with all channels written means exactly the block, whatever it held before |
| SlotQueue.WriteBehind | daemon/ipc/include/ipc_shm.hpp:56-61 | a write to the reserved audio slot disturbs no queued block |
| SlotQueue.Rework | daemon/ipc/include/ipc_shm.hpp:45-49 | in-place work on the peeked slot changes the oldest block only |
| PipelineProof.WakeFindsInput | daemon/worker.cpp:240-245 | after a successful read of e_send peek_read is not null |
| PipelineProof.StepKeepsInv | daemon/worker.cpp:223-295 | every step of plugin and worker keeps the whole pipeline invariant |
| PipelineTheorems.EveryWakeFindsAFrame | sdk/src/dsp_accel_sdk.cpp:250-265 | a wakeup on either side finds a frame in its queue |
| PipelineTheorems.FramesAreConserved | daemon/worker.cpp:244-286 | committed input frames are queued, waiting as output, read or dropped, exactly |
| PipelineTheorems.ReadsFollowDispatchOrder | sdk/src/dsp_accel_sdk.cpp:264-281 | reads return the stage's results for strictly later and later dispatched blocks |
| PipelineTheorems.SampleRoundTrip | sdk/src/dsp_accel_sdk.cpp:196-281 | under an identity stage a read returns exactly the first min(frames, 256) samples of the first min(channels, 8, read channels) channels; stale samples never appear |
| PipelineTheorems.StampRoundTrip | sdk/src/dsp_accel_sdk.cpp:211-271 | under a stage that keeps the timestamp, a read returns the clock reading of the very call it answers |
| PipelineTheorems.WaitingBlockLength | sdk/src/dsp_accel_sdk.cpp:274-279 | under a stage that keeps the length, the block about to be copied out is as long as the clamped count of the dispatch it answers |
| PipelineTheorems.SlotsAreNeverShared | daemon/ipc/include/ipc_shm.hpp:45-66 | the slot being filled is never the slot being worked on or read |
| PipelineTheorems.RestingQueueCountsLostSignals | daemon/worker.cpp:237-286 | at rest in_queue holds exactly one frame per merged or failed signal; it is empty exactly when there was none |
| PipelineTheorems.QueueCountsSignals | daemon/worker.cpp:237-286 | in every state in_queue holds one frame per pending, merged or failed signal, one about to be signalled and one the worker is awake for |
| PipelineProgress.AnotherFrameExactlyWhen | sdk/src/dsp_accel_sdk.cpp:175-232 | some continuation commits another frame if and only if fewer than fifteen frames lost their signal and no error keeps the next call out |
| PipelineProgress.MergingAloneLosesAtMostFourteen | daemon/worker.cpp:237-286 | merged signals cost at most fourteen frames, and fifteen losses include a failed signal |
| PipelineProgress.MergingLoses | daemon/worker.cpp:237-286 | every number of losses up to fourteen is reached by merging alone |
| PipelineProgress.JamIsReachable | sdk/src/dsp_accel_sdk.cpp:201-232 | a run with fourteen merged signals and one failed one, after which no frame is ever committed |
| PipelineProgress.ServingReleases | daemon/worker.cpp:236-295 | once awake for a frame the worker can release it by serving steps alone, with the foreseen result, fate and error flag |
| PipelineProgress.DispatchRun | sdk/src/dsp_accel_sdk.cpp:167-235 | the error check of a dispatch and then its own steps only have the effect of the call |
| PipelineCalls.WakeupRun | daemon/worker.cpp:236-295 | the read of e_send and then serving steps only have the effect of the turn on both queues |
| PipelineCalls.ReadRun | sdk/src/dsp_accel_sdk.cpp:242-283 | the read of eventfd_recv and then the steps of read_output only have the effect of the call |
| PipelineCalls.QueuesMean | daemon/ipc/include/ipc_shm.hpp:45-66 | the payloads of the frames in the two rings are the blocks of the two abstract queues |
| PipelineTheorems.EventsMissAtMostOneFrame | daemon/worker.cpp:230-258 | every event pushed before a frame is committed is applied before the next frame is processed |
| PipelineTheorems.EventAcceptedExactlyWhen | sdk/src/dsp_accel_sdk.cpp:305-310 | an event is accepted exactly when fewer than 63 accepted ones have yet to be applied |
| PipelineTheorems.FrameMissesExactlyLaterEvents | daemon/worker.cpp:230-258 | a frame misses an event exactly when it was pushed after the worker last found the bus empty, and is processed under all others in order |
| PipelineTheorems.FrameMayMissItsOwnEvent | daemon/worker.cpp:230-258 | a run in which a frame is processed without an event pushed before it |
| PipelineTheorems.EveryFrameHasInstanceZero | sdk/src/dsp_accel_sdk.cpp:208-212 | every frame the worker processes has instance id 0 |
| PipelineTheorems.FailureStopsDispatch | sdk/src/dsp_accel_sdk.cpp:175-179 | after a failed stage at most one dispatch already under way commits a frame |
| Sdk.SdkContext.constructor | sdk/src/dsp_accel_sdk.cpp:147-152 | the context starts with the worker's heartbeat and zero counts |
| Sdk.SdkContext.FillSlot | sdk/src/dsp_accel_sdk.cpp:208-218 | the reserved slot ends up with the clamped counts, the call's clock reading and its samples; no other slot and not its instance id changes |
| Sdk.SdkContext.Dispatch | sdk/src/dsp_accel_sdk.cpp:167-235 | for all arguments: refused on an error or a stall; XRUN on a full queue; out of bounds exactly on arguments that do not fit; otherwise exactly one frame, stamped with the call's clock reading, is appended and signalled, with the counters to match |
| Sdk.SdkContext.CopyOut | sdk/src/dsp_accel_sdk.cpp:278-279 | the block's channels land in the caller's buffers in order, also where two channels name one buffer |
| Sdk.SdkContext.CopiedIsReceived | sdk/src/dsp_accel_sdk.cpp:278-279 | with a buffer of its own for every channel, each buffer starts with its channel and keeps the rest |
| Sdk.SdkContext.ReadOutput | sdk/src/dsp_accel_sdk.cpp:242-283 | for all buffers: false without a signal or a frame; out of bounds exactly when the waiting block does not fit; otherwise that frame is copied out and retired |
| Sdk.SdkContext.SetParam | sdk/src/dsp_accel_sdk.cpp:305-310 | the event is appended, or refused on a full bus |
| Worker.VulkanBackend.constructor | daemon/worker.cpp:53-69 | gain 1, threshold 0.95, both parameters 0.5, algorithm 0, no instance state and an empty pool |
| Worker.VulkanBackend.RouteFrame | daemon/worker.cpp:70-85 | an unseen instance is given a state buffer of 1024 bytes exactly when the device works and a slot is free; the zero-copy path is taken exactly while an import is held |
| Worker.VulkanBackend.ApplyControlEvent | daemon/worker.cpp:87-93 | the parameters follow the event |
| Worker.VulkanBackend.AllocateBuffer | daemon/worker.cpp:95-97 | the plugin comes to hold the claimed handle |
| Worker.VulkanBackend.FreeBuffer | daemon/worker.cpp:101-103 | the plugin no longer holds the handle |
| Worker.VulkanBackend.SetZeroCopyBypass | daemon/worker.cpp:104-110 | an import is in use afterwards exactly when bypass is enabled on a good descriptor, the device works and a slot is free; otherwise nothing but that changes |
| Worker.WorkerProcess.DrainControl | daemon/worker.cpp:230-234 | the whole control bus is applied, oldest first |
| Worker.WorkerProcess.FillOutput | daemon/worker.cpp:276-282 | the output slot ends up with the processed frame's counts, timestamp and valid samples; no other slot changes |
| Worker.WorkerProcess.ProcessInPlace | daemon/worker.cpp:244-271 | the oldest input frame is replaced by the graph's result, and a failure is recorded |
| Worker.WorkerProcess.Deliver | daemon/worker.cpp:273-284 | the frame's payload is appended to out_queue, or dropped exactly when that is full |
| Worker.WorkerProcess.ServeFrame | daemon/worker.cpp:236-295 | one wakeup clears all signals and serves exactly one frame |
| Worker.WorkerProcess.ServeRequest | daemon/worker.cpp:300-317 | a request has the sequential allocator's effect and response; a successful upload copies the staged bytes |
| Worker.WorkerProcess.Respond | daemon/worker.cpp:299-319 | the response is pushed, or lost on a full bus |
| Worker.WorkerProcess.ServeNext | daemon/worker.cpp:299-319 | one turn of the loop leaves the outcome of the whole loop unchanged |
| Worker.WorkerProcess.ServeMemoryBus | daemon/worker.cpp:297-319 | the loop empties the request bus and answers all of it in order |
| Worker.WorkerProcess.ServeAllExactly | daemon/worker.cpp:297-319 | the loop leaves the sequential allocator's pool and pushes its results in order as long as fewer than 31 responses wait |
| MemoryBus.RequestsAreReplayed | daemon/worker.cpp:297-319 | running requests one after the other continues the replay that RefinesSequentialAllocator is about |

## Left out

- Stale loads in the pipeline: its machine loads counters up to date. SpscProtocol shows for one ring, under both ways of using it, that stale loads can only turn a success into a refusal.
- Weak memory with partial slot writes: in SpscProtocol a slot is written whole, and is written or read at least once before its commit, as every caller does; Pipeline writes slots in parts.
- The polling loops of allocate_vram, upload_buffer and free_vram as methods: the other process acts between two polls, so they are steps of MemoryBus.
- The main loop of the worker as one method: its order of steps is in Pipeline and MemoryBus, its parts are methods of Worker.
- Two channel pointers to one buffer in the pipeline: there each channel has its own; SdkContext.ReadOutput covers the other case.
- ToUint32: a value outside the range of uint32_t, for which the cast is undefined, gives 0.
- Datagrams shorter than a header and a whole frame: the source does not check the payload length of audio packets.
- Liveness: nothing is said about a frame, packet or response that is never scheduled.
- Vulkan objects, command recording and fences: the pool sees only whether device calls succeed, and some failure paths do not release what they created.
- Shader and floating-point arithmetic: samples are opaque values and stages are functions.
- The node graph, the parallel split and the NPU backend: single loops over an abstract stage.
- Routing of plugins to workers, load percentage, clock synchronisation and round-trip telemetry.
- Sockets, descriptor passing, memory mapping, sealing, scheduling priority and logging.
- The older daemon/worker_main.cpp and sdk/src/dsp_accel_sdk.c.
- The CLAP, LV2 and VST3 wrappers, the monitor, the MCP server and the build scripts.
