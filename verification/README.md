# Verified model of rapace

This project models the parts of the rapace RPC framework that keep state over long runs, and
proves what they guarantee over *every* run. Check it with `dafny verify dfyconfig.toml`.

## What is modelled

**Flow-control session** (`Session.dfy`, `SessionModel.dfy`, `SessionRefinement.dfy`, `SessionRuns.dfy`).
Each data channel has credits and an HTTP/2-style half-close life cycle. Finished channels are pruned
into a bounded first-in-first-out window of tombstones. `FlowControl.Session` is the pruning session;
its methods update the channel map and the window in place and are proved equal to the steps of a value
`State`. `UnprunedSession.SessionModel` is the simple session that remembers everything. The refinement
theorem says for every run exactly when pruning is invisible, what this comes to while no more channels
terminate than tombstones fit, that this bound cannot be raised, and what is reported to observers. The run
theorems give the exact life time of a tombstone, the finality of half-close, what is reported after a
cancel, the conservation of credits, and the history that an entry of the simple session stands for.

**Shared-memory transport** (`Bits.dfy`, `Ring.dfy`, `Spsc.dfy`, `Slab.dfy`, `Shm.dfy`). The ring is
proved to be a bounded FIFO queue, both as a class and with the producer's and consumer's atomic steps
interleaved arbitrarily, where each operation also completes. The slab hands out generation-tagged handles that are unique for exactly 2^32
uses of a slot. Their composition packs a handle and a message id into 64 bits. `Shm` is the ideal
session with full handles; `ShmSession` is the real one and carries the ideal one as ghost state. The
repository's own interpreters (`execute_and_verify`) are transcribed with all their checks and proved
to succeed on exactly the operation lists that meet a stated arithmetic condition.

**RPC session** (`Handshake.dfy`, `ChannelIds.dfy`, `Demux.dfy`, `TunnelStream.dfy`, `TunnelEndToEnd.dfy`).
The two-party Hello handshake over two FIFO links, channel-ID allocation under 32-bit wrap-around, the
demux loop that routes each frame to a tunnel, a waiter, the control handler or the dispatcher, and the
reader that turns a tunnel's chunks back into bytes. The last file joins the pieces: bytes written to a
tunnel on one side, framed among other traffic on a byte stream, routed and read on the other side.

**Codecs and indexes** (`Descriptor.dfy`, `StreamTransport.dfy`, `Framing.dfy`, `Registry.dfy`,
`PooledWriter.dfy`). The 64-byte descriptor, the two length-prefixed framings that use it (the Rust byte
stream and the TypeScript pipe, whose input may be split anywhere), the registry's by-name and by-ID
indexes with the FNV-1a hash between them, and the serialization writer that overflows to the heap.

Methods that update objects are specified by functions on values (`View`, `Step`, `At`), and the theorems
are lemmas about runs of those functions. `{:induction false}` marks lemmas whose induction is written out.

Where the code and its documentation differ, the code is followed: an error chunk on a tunnel is dropped
without ending the stream; freeing a message whose slot's generation no longer fits 16 bits removes the
message although the slot stays in flight; registering a service name twice replaces the service but keeps
the ids of its former methods indexed.

## Results that correct an expectation

Some properties one would expect hold only under a condition; it is stated and shown to be exact.

- Pruning matches the unpruned session exactly as long as no frame is turned away for tracking too many
  channels at once, none finds room on a channel whose tombstone was evicted, and none outside the control
  protocol is dropped on channel 0; a received frame turned away on an evicted channel is the one exception
  (`PruningIsInvisibleIff`, `ZeroIsSilenced`). While at most `max` channels terminate no
  tombstone is evicted (`PruningRefinesModel`); with `max + 1` one can be, and then a run differs with no frame
  turned away (`EvictionBoundIsTight`).
- After its last cancel a channel is reported as cancelled exactly as long as its tombstone was never evicted and
  no late grant has re-created its entry; a later frame removes the entry and the cancellation is reported again
  (`CancellationReported`, `LateGrantHidesCancellation`).
- A send that is dropped or refused leaves the reported credits alone, except that on a tombstoned channel it
  forfeits what a late grant had given (`RefusedSendsCost`, `LateGrantIsForfeited`).
- The shared-memory interpreter succeeds exactly on runs in which every freed message's slot was handed
  out fewer than 2^16 times (`SharedMemory.ExecuteAndVerify`); 65535 sends never leave that range and
  65536 can (`FewSendsFit`, `SendBoundIsTight`).
- Slab handles are unique exactly while no slot is used more than 2^32 times (`HandlesAreUnique`), and a freed
  handle succeeds again exactly at multiples of 2^32 reuses (`FreedHandleSucceedsIff`, `FreedHandleRevives`).
- The handshake completes exactly for complementary roles; two initiators both fail, two acceptors wait
  for ever (`HandshakeCompletes`, `TwoAcceptorsNeverMove`).
- A pipe frame survives writing and reading exactly when it does not carry bytes beside an inline payload
  (`Framing.RoundTrip`); a stream frame arrives exactly when its length fits 32 bits (`SentIsReceived`).
- A tunnel read into a non-empty buffer returns no bytes, which callers take for the end, exactly at the end of
  the stream or on an empty chunk that does not end it (`EmptyReadIff`).
- Names that differ only in where the dot falls hash alike (`DotsAreAmbiguous`), so registering both panics.

## Model

| member | source | states |
|---|---|---|
| FlowControl.Tombstones.Insert | rust/rapace/src/session.rs:69-80 | inserting updates the window to the one-insertion step and keeps it valid; the eviction loop runs at most once |
| FlowControl.WindowNoDup | rust/rapace/src/session.rs:45-80 | the eviction order of a valid window holds each tombstoned id exactly once |
| FlowControl.InsertValid | rust/rapace/src/session.rs:69-80 | after any insertion the order still holds exactly the keys of the map and never more than the maximum |
| FlowControl.SettleInv | rust/rapace/src/session.rs:156-172 | writing a channel back, or burying it once terminal, leaves no tracked channel closed or cancelled |
| FlowControl.StepInv | rust/rapace/src/session.rs:241-432 | every send, receive, grant and cancel keeps the window valid and every tracked channel neither closed nor cancelled |
| FlowControl.RunInv | rust/rapace/src/session.rs:188-432 | the session invariant holds at every point of every run |
| FlowControl.Session.SendFrame | rust/rapace/src/session.rs:241-318 | sending moves the session by one send step, returns that step's outcome, and puts the frame on the transport exactly when the outcome is Sent |
| FlowControl.Session.RecvFrame | rust/rapace/src/session.rs:327-401 | receiving consumes the incoming frames up to the first one that is not dropped, moving the session by one receive step for each |
| FlowControl.Session.AcceptFrame | rust/rapace/src/session.rs:329-399 | one turn of the receive loop keeps a frame exactly when its receive step delivers it |
| FlowControl.Session.GrantCreditsTo | rust/rapace/src/session.rs:415-419 | granting is the saturating grant step, which creates an entry even for a tombstoned or untracked channel |
| FlowControl.Session.CancelChannel | rust/rapace/src/session.rs:422-432 | cancelling forgets the channel and records a cancelled tombstone, except on channel 0 |
| FlowControl.Session.ProcessControlFrame | rust/rapace/src/session.rs:500-522 | control frames of the peer cancel and grant like the local calls, others change nothing |
| Base.SaturatingAdd | rust/rapace/src/session.rs:415-419 | the sum, or as close to it as 32 bits get |
| UnprunedSession.SessionModel.TrySend | fuzz/src/session_model.rs:101-133 | the unpruned send: dropped, refused for lack of credits, or charged and counted, with the EOS transition |
| UnprunedSession.SessionModel.Recv | fuzz/src/session_model.rs:138-160 | the unpruned receive: dropped or counted, with the EOS transition |
| UnprunedSession.ExecuteAndVerify | fuzz/src/session_model.rs:218-428 | every check of the interpreter succeeds on every operation list |
| SessionRefinement.StepAgreesHere | rust/rapace/src/session.rs:241-432 | if both sessions agree on a channel, an operation on it that is not turned away has the same outcome in both and they agree again |
| SessionRefinement.PeerControls | rust/rapace/src/session.rs:327-337 | a received control frame is delivered and does what the local call it stands for does |
| SessionRefinement.StepAgreesElsewhere | rust/rapace/src/session.rs:241-432 | an operation on another channel keeps the agreement unless it evicts this channel's tombstone |
| SessionRefinement.FewChannelsAdmitted | rust/rapace/src/session.rs:257-268 | a run that touches at most the tracked limit of channels has no frame turned away |
| SessionRefinement.TurnedAwayDiffers | rust/rapace/src/session.rs:257-268 | a frame turned away for tracking too many channels always has another outcome in the unpruned session |
| SessionRefinement.ChannelRefines | rust/rapace/src/session.rs:241-432 | while a channel's tombstone is not evicted and none of its frames was turned away, an operation on it has the unpruned session's outcome exactly if it is not turned away itself, whatever happens on other channels |
| SessionRefinement.NothingEvicted | rust/rapace/src/session.rs:75-79 | no step evicts a tombstone while at most the maximum number of channels have terminated |
| SessionRefinement.PruningIsInvisibleIff | rust/rapace/src/session.rs:241-432 | on every run, whatever the flags of its frames, all outcomes are those of the session that never prunes exactly as long as no sent frame is turned away at the tracked-channel limit, no received frame is turned away on a channel whose tombstone was not lost, no frame finds room on a channel whose tombstone was, and no frame that is no control frame is dropped on channel 0 |
| SessionRefinement.ZeroIsSilenced | rust/rapace/src/session.rs:341-399 | after an EOS on channel 0 outside a control frame such frames are dropped there, which the unpruned session delivers |
| SessionRefinement.TiedHere | rust/rapace/src/session.rs:241-432 | a step on a channel has the same outcome in both sessions exactly if it is none of these frames, and then keeps the two tied together |
| SessionRefinement.TurnedAwayBuriesAgain | rust/rapace/src/session.rs:341-399 | a received frame turned away on an evicted channel is dropped in both sessions and buries the channel again |
| SessionRefinement.PruningRefinesModel | rust/rapace/src/session.rs:241-432 | while at most the maximum number of channels terminate and channel 0 receives only control frames, that condition is that no frame is turned away |
| SessionRefinement.EvictionBoundIsTight | rust/rapace/src/session.rs:69-80 | for every window size, one terminated channel more allows a run with no frame turned away on which the two sessions give different outcomes |
| SessionRefinement.EvictedChannelReopens | rust/rapace/src/session.rs:341-399 | a frame on an evicted channel is delivered and may be sent although the unpruned session drops it |
| SessionRefinement.ObserversAgree | rust/rapace/src/session.rs:435-473 | off the window credits, life cycle and cancellation are reported as by the unpruned session; on it a channel is closed, without credits and faithfully cancelled, unless a re-created entry is reported instead |
| SessionRefinement.LateGrantHidesCancellation | rust/rapace/src/session.rs:415-446 | a cancel followed by a grant on the same channel reports the channel as not cancelled |
| SessionRuns.WindowIsExact | rust/rapace/src/session.rs:69-80 | a tombstone outlives every run with fewer than the maximum of fresh insertions, silencing its channel, and is gone right after the insertion that completes the maximum |
| SessionRuns.TombstoneSilences | rust/rapace/src/session.rs:247-253 | on a tombstoned channel no DATA frame is sent and no frame is delivered |
| SessionRuns.HalfCloseIsFinal | rust/rapace/src/session.rs:156-172 | after an accepted EOS in one direction no later frame crosses in that direction until the channel's tombstone, if it came to one, is evicted |
| SessionRuns.HalfCloseOutlivesBurials | rust/rapace/src/session.rs:69-80 | in particular none crosses while fewer than the maximum of channels were buried since |
| SessionRuns.CancellationReported | rust/rapace/src/session.rs:415-473 | since its last cancel a channel is reported cancelled exactly as long as its tombstone was never evicted and no late grant has re-created its entry |
| SessionRuns.ReportedUntilEviction | rust/rapace/src/session.rs:415-473 | until eviction a cancelled channel is closed and without credits while no late grant has re-created its entry, and otherwise open with the default credits plus those grants |
| SessionRuns.CreditsConserved | rust/rapace/src/session.rs:271-290 | credits left plus bytes accepted since the entry was created never exceed the initial allowance plus the grants, with equality unless a grant saturated |
| SessionRuns.FramesCounted | rust/rapace/src/session.rs:271-381 | the frame counters of a tracked channel are exactly the DATA frames sent, and received, since its entry was created |
| SessionRuns.FirstPayload | rust/rapace/src/session.rs:271-290 | an untouched data channel takes a first payload of up to 65536 bytes and refuses a longer one, reporting need and allowance |
| SessionRuns.ControlAllowance | rust/rapace/src/session.rs:449-459 | channel 0 is never reported with less than its initial credits, even when it has a tombstone |
| SessionRuns.TrackedIsBounded | rust/rapace/src/session.rs:257-268 | the tracked channels never exceed their limit by more than the number of credit grants |
| SessionRuns.EntryRecordsStory | fuzz/src/session_model.rs:101-180 | over every run a channel of the unpruned session records the EOS of either direction, cancellation, frames moved, and the credits that allowance, grants and accepted bytes leave |
| SessionRuns.StoryDecides | fuzz/src/session_model.rs:101-160 | what happened to a channel decides its next frame: sent exactly if neither cancelled nor ended locally and covered by credits, delivered exactly if neither cancelled nor ended by the peer |
| SessionRuns.RefusedSendsCost | rust/rapace/src/session.rs:247-290 | a send that is dropped or refused changes the credits reported for a channel exactly if it is the frame's own, is tombstoned, and had credits from a late grant |
| SessionRuns.LateGrantIsForfeited | rust/rapace/src/session.rs:247-253 | a dropped send after a cancel and a grant takes the reported credits from 65541 to 0 |
| Bits.AndMask | fuzz/src/ring_model.rs:36-38 | masking the binary digits with a power of two minus one is the remainder |
| DescriptorRing.CapacityIsPowerOfTwo | fuzz/src/ring_model.rs:78-86 | for every requested capacity the ring's capacity is a power of two from 4 to 64: the least one that holds the request if there is one, 64 above, 4 above 2^31 |
| DescriptorRing.MaskIsModulo | fuzz/src/ring_model.rs:96-117 | indexing with the mask is indexing modulo the capacity |
| DescriptorRing.RingModel.Enqueue | fuzz/src/ring_model.rs:88-105 | appends to the abstract queue and fails exactly when it holds the capacity |
| DescriptorRing.RingModel.Dequeue | fuzz/src/ring_model.rs:108-127 | removes and returns the head of the abstract queue, or nothing exactly when it is empty |
| DescriptorRing.ExecuteAndVerify | fuzz/src/ring_model.rs:173-292 | every check of the interpreter succeeds on every operation list shorter than 2^64, which every Rust slice is |
| SpscInterleaving.UnreadSlotsAreSafe | fuzz/src/ring_model.rs:88-105 | the producer never writes a slot that holds an unread descriptor, whatever the interleaving |
| SpscInterleaving.NextInv | fuzz/src/ring_model.rs:88-127 | each atomic step of either side keeps the ring invariant |
| SpscInterleaving.InterleavingsAreSafe | fuzz/src/ring_model.rs:88-127 | over every interleaving the consumed descriptors are a prefix of the produced ones and the counters stay ordered, at most the capacity apart and within 64 bits |
| SpscInterleaving.RefinesAtomicQueue | fuzz/src/ring_model.rs:88-127 | the interleaved steps refine an atomic bounded queue: publishing enqueues, advancing the tail dequeues, nothing else changes it, and full and empty answers were right when loaded |
| SpscInterleaving.DequeueCompletes | fuzz/src/ring_model.rs:108-127 | the four steps of a dequeue, with any producer steps in between, take exactly the head of the queue as it was when the head was loaded, or nothing if it was empty then |
| SpscInterleaving.EnqueueCompletes | fuzz/src/ring_model.rs:88-105 | the four steps of an enqueue, with any consumer steps in between, put the descriptor behind what is left of the queue if there was room when the tail was loaded, and otherwise change nothing |
| SlabAllocator.SlotCount | fuzz/src/slab_model.rs:58-64 | the number of slots from 4 to 32 that is nearest to the request |
| SlabAllocator.RefusalsAreTrue | fuzz/src/slab_model.rs:84-123 | a refused handle is reported with what is wrong with it: no such slot, another generation, or the state the slot is in; and nothing changes |
| SlabAllocator.AllocFailsOnlyWhenFull | fuzz/src/slab_model.rs:67-81 | allocation fails exactly when no slot is free |
| SlabAllocator.NextHandleIsNew | fuzz/src/slab_model.rs:67-81 | the next handle of a slot was never issued before exactly if the slot was used fewer than 2^32 times |
| SlabAllocator.HandlesAreUnique | fuzz/src/slab_model.rs:67-81 | over every run all issued handles differ exactly if no slot was used more than 2^32 times |
| SlabAllocator.FreedHandleSucceedsIff | fuzz/src/slab_model.rs:84-123 | a freed handle succeeds again in mark_in_flight or free exactly if its slot was handed out a positive multiple of 2^32 times since and is in the state asked for |
| SlabAllocator.FreedHandleStaysDead | fuzz/src/slab_model.rs:84-123 | a freed handle never again succeeds in mark_in_flight or free while its slot is reused fewer than 2^32 times |
| SlabAllocator.FreedHandleRevives | fuzz/src/slab_model.rs:84-102 | there are calls on which a freed handle is marked in flight again right after the 2^32-th reuse |
| SlabAllocator.SlabModel.Alloc | fuzz/src/slab_model.rs:67-81 | takes the first free slot, bumps its generation with wrap-around and returns the new handle |
| SlabAllocator.SlabModel.MarkInFlight | fuzz/src/slab_model.rs:84-102 | moves an allocated slot in flight through its current handle, with the three error cases in order |
| SlabAllocator.SlabModel.Release | fuzz/src/slab_model.rs:105-123 | frees an in-flight slot through its current handle, with the three error cases in order |
| SlabAllocator.ExecuteAndVerify | fuzz/src/slab_model.rs:207-425 | the interpreter, double frees and stale uses included, succeeds exactly on the lists that hand out no slot more than 2^32 times |
| SlabAllocator.ShortRunsFit | fuzz/src/slab_model.rs:207-425 | a list of at most 2^32 operations never does |
| SharedMemory.EncodeDesc | fuzz/src/shm_integration.rs:185-189 | the shifts and masks pack the three fields side by side, each modulo its width |
| SharedMemory.DecodeEncode | fuzz/src/shm_integration.rs:185-196 | unpacking recovers slot index and generation modulo 2^16 and message id modulo 2^32 |
| SharedMemory.SendOwned | fuzz/src/shm_integration.rs:231-253 | a send keeps slots and handles in bijection and every id in one place |
| SharedMemory.RecvOwned | fuzz/src/shm_integration.rs:256-274 | a receive keeps them |
| SharedMemory.FreeSucceedsIff | fuzz/src/shm_integration.rs:277-285 | freeing a received message succeeds exactly if its slot's generation survived packing |
| SharedMemory.RetriedOwned | fuzz/src/shm_integration.rs:288-308 | moving pending sends into the ring one by one keeps ownership and conservation, and each marking succeeds |
| SharedMemory.RunOwned | fuzz/src/shm_integration.rs:219-308 | the bijections and the conservation of ids hold at every point of every run that frees no overflowed handle |
| SharedMemory.MessagesConserved | fuzz/src/shm_integration.rs:231-308 | every id below the counter is in exactly one of pending, ring, received or freed |
| SharedMemory.NoIdGoesMissing | fuzz/src/shm_integration.rs:231-308 | along every run, overflowed generations included, every id below the counter is in exactly one of pending, ring, received, freed, or lost to a refused free |
| SharedMemory.ShmSession.ASend | fuzz/src/shm_integration.rs:231-253 | the packed session follows the ideal one on sends, with its errors |
| SharedMemory.ShmSession.BRecv | fuzz/src/shm_integration.rs:256-274 | the packed session receives the oldest descriptor in the ring and returns its id modulo 2^32 |
| SharedMemory.ShmSession.BFree | fuzz/src/shm_integration.rs:277-285 | frees the first received message with that id, removing it even when the slab refuses, which it does exactly on an overflowed generation |
| SharedMemory.ShmSession.ARetryPending | fuzz/src/shm_integration.rs:288-308 | sends exactly the longest prefix of the pending list that fits the ring, in order, and keeps the rest in order |
| SharedMemory.FewSendsFit | fuzz/src/shm_integration.rs:325-381 | a run with at most 65535 sends never frees an overflowed handle |
| SharedMemory.SendBoundIsTight | fuzz/src/shm_integration.rs:277-285 | 65536 rounds of send, receive and free on one slot make the last free fail, and only the last |
| SharedMemory.ExecuteAndVerify | fuzz/src/shm_integration.rs:325-438 | on every operation list the interpreter succeeds exactly if no overflowed handle is freed |
| SharedMemory.IdsAreFew | fuzz/src/shm_integration.rs:231-308 | over every run of any length at most 2^16 message ids are handed out per slot, because a slot that reached generation 2^16 is never freed again |
| SharedMemory.IdBoundIsReached | fuzz/src/shm_integration.rs:231-308 | a run that frees no overflowed handle reaches that number |
| Handshake.HelloAccepted | rust/rapace-core/src/session.rs:939-1035 | our own Hello offers version 1.0 and the four features, and passes the peer's checks exactly if the roles are complementary |
| Handshake.ValidIffWelcome | rust/rapace-core/src/session.rs:939-1035 | a first frame from anyone is accepted exactly if it is a control frame on channel 0 with the Hello method, a decodable Hello of the other role, version 1.x, and the two required feature bits |
| Handshake.FirstFaultIsReported | rust/rapace-core/src/session.rs:939-1023 | the error reported is the first fault in the order of the checks, whatever else is wrong |
| Handshake.NextInv | rust/rapace-core/src/session.rs:1041-1055 | every step of either side keeps what its phase says about frames sent and read |
| Handshake.ReadyOnlyIfComplementary | rust/rapace-core/src/session.rs:1556-1585 | in every reachable state a ready side has a peer of the other role, and a failed one means two initiators |
| Handshake.GatedFramesFollowHello | rust/rapace-core/src/session.rs:370-381 | a frame that waits for readiness is sent exactly when its side is ready, and behind that side's Hello |
| Handshake.AdvanceMakesProgress | rust/rapace-core/src/session.rs:1041-1055 | unless both sides are acceptors some side can move until both are through, and every move brings the end one step nearer |
| Handshake.WaitsOnlyForFrames | rust/rapace-core/src/session.rs:1041-1055 | a side waits exactly while it needs a frame, has read all there is and the link is open; an exhausted closed link fails it |
| Handshake.HandshakeCompletes | rust/rapace-core/src/session.rs:1041-1055 | from every reachable state every continuation that gives each side four turns, with any other steps in between, ends with both ready exactly for complementary roles and both failed exactly for two initiators |
| Handshake.TwoAcceptorsNeverMove | rust/rapace-core/src/session.rs:1041-1055 | two acceptors stay where they started for ever |
| ChannelIds.Allocator.NextChannelId | rust/rapace-core/src/session.rs:433-435 | hands out the next id of the sequence from the start, two apart modulo 2^32 |
| ChannelIds.ParitiesNeverMeet | rust/rapace-core/src/session.rs:298-348 | parity is kept for ever, so sessions with starts of opposite parity never share an id |
| ChannelIds.RepeatsExactly | rust/rapace-core/src/session.rs:433-435 | two allocations give the same id exactly if their numbers agree modulo 2^31 |
| ChannelIds.IdsByRole | rust/rapace-core/src/session.rs:298-312 | an initiator gives out 1, 3, 5, ... and an acceptor 2, 4, 6, ..., each to the end of 32 bits |
| ChannelIds.OddStart | rust/rapace-core/src/session.rs:298-304 | an odd start never gives the reserved 0 and gives 2^31 different ids |
| ChannelIds.AcceptorStart | rust/rapace-core/src/session.rs:298-304 | start 2 gives 0 exactly after 2^31 - 1 different ids |
| ChannelIds.ReadySessionsShareNoId | rust/rapace-core/src/session.rs:298-312 | once the handshake let either side through, the two sessions never allocate the same id |
| Demultiplexer.RpcSession.RegisterPending | rust/rapace-core/src/session.rs:479-507 | registers a waiter unless the limit is reached |
| Demultiplexer.RpcSession.TryRouteToTunnel | rust/rapace-core/src/session.rs:586-636 | a frame on a tunnel's channel goes to its receiver; a dropped receiver or an EOS ends the registration |
| Demultiplexer.RpcSession.TryRouteToPending | rust/rapace-core/src/session.rs:511-538 | a waiter on the channel gets the frame and is removed |
| Demultiplexer.RpcSession.HandleControlFrame | rust/rapace-core/src/session.rs:644-745 | answers pings, opens non-zero channels, rejects opening channel 0, ignores the rest |
| Demultiplexer.RpcSession.Run | rust/rapace-core/src/session.rs:1588-1699 | the demux loop routes the received frames one after the other |
| Demultiplexer.StepInv | rust/rapace-core/src/session.rs:479-636 | every operation keeps waiters and receivers registered at most once and the pending map within its limit |
| Demultiplexer.OneOutcome | rust/rapace-core/src/session.rs:1588-1699 | each frame is given once, to the one party its outcome names, and to nobody else |
| Demultiplexer.TunnelGetsItsStream | rust/rapace-core/src/session.rs:555-636 | a tunnel's receiver has exactly the frames on its channel since registration, in order, up to and including the first EOS |
| Demultiplexer.WaiterHasOneFate | rust/rapace-core/src/session.rs:479-538 | a waiter is pending, or has the first RESPONSE frame that came on its channel with no tunnel there, or was abandoned, and only one of these |
| Demultiplexer.PendingIsBounded | rust/rapace-core/src/session.rs:479-496 | the pending map never exceeds its limit |
| Demultiplexer.EveryFrameIsPlaced | rust/rapace-core/src/session.rs:1588-1699 | over every run a frame's outcome is fixed by what came before it; in particular it is dispatched exactly if it is a DATA frame, no response, on a non-zero channel that no tunnel has and that the peer opened, and a dispatcher was set |
| Demultiplexer.OpenIff | rust/rapace-core/src/session.rs:700-725 | a channel is open exactly if it is not 0 and an OpenChannel for it reached the control handler before |
| Demultiplexer.TunnelledIff | rust/rapace-core/src/session.rs:555-636 | a channel has a tunnel exactly if one was registered on it that has not since been unregistered, received its EOS, or received a frame after its receiver was dropped |
| Demultiplexer.TunnelFrames | rust/rapace-core/src/session.rs:586-636 | a frame on a tunnelled channel goes to the registered receiver exactly if that was not dropped |
| Demultiplexer.RepliesAreAnswers | rust/rapace-core/src/session.rs:644-725 | the peer is sent a Pong with the same payload for each Ping handled and a CancelChannel for each rejected frame or OpenChannel of 0, in order, and nothing else |
| Demultiplexer.DispatchedWereOpened | rust/rapace-core/src/session.rs:1650-1699 | the dispatcher only sees DATA frames, no responses, on non-zero channels opened by an earlier OpenChannel |
| TunnelReader.TunnelStream.PollRead | rust/rapace-core/src/tunnel_stream.rs:112-224 | a read takes its bytes off the front of what was unread, at most as many as the buffer has room for, with the pending, error and end cases |
| TunnelReader.ReadSplits | rust/rapace-core/src/tunnel_stream.rs:112-224 | a read divides the unread bytes in two |
| TunnelReader.ByteFidelity | rust/rapace-core/src/tunnel_stream.rs:112-224 | bytes read, the rest of the buffered chunk and the queued payloads are together the payloads delivered that are no error reports, for every schedule of deliveries and reads |
| TunnelReader.FailureFidelity | rust/rapace-core/src/tunnel_stream.rs:112-224 | every error report delivered makes exactly one read fail, at its place among the bytes |
| TunnelReader.ReadAnswers | rust/rapace-core/src/tunnel_stream.rs:112-224 | a read waits exactly while nothing is at hand and more may come, and fails exactly when an error report is next |
| TunnelReader.EmptyReadIff | rust/rapace-core/src/tunnel_stream.rs:112-224 | a read into a non-empty buffer returns no bytes exactly at the end of the stream or on an empty chunk that does not end it |
| TunnelReader.EofMeansAllRead | rust/rapace-core/src/tunnel_stream.rs:117-198 | at end of file every delivered byte was read, and an EOS that is no error report or a closed sender caused it |
| TunnelReader.ReadProgress | rust/rapace-core/src/tunnel_stream.rs:112-224 | a read into a non-empty buffer that is not pending brings end of file nearer |
| TunnelReader.ReadingDrains | rust/rapace-core/src/tunnel_stream.rs:112-224 | after an EOS or a closed sender, enough reads into non-empty buffers return every byte and then end of file |
| Descriptor.ToBytes | rust/rapace-core/src/descriptor.rs:149-164 | filling the buffer slice by slice yields the 64-byte encoding |
| Descriptor.DecodeEncode | rust/rapace-core/src/descriptor.rs:149-184 | decoding inverts encoding |
| Descriptor.EncodeDecode | rust/rapace-core/src/descriptor.rs:149-184 | encoding inverts decoding: every 64 bytes encode exactly one descriptor |
| Descriptor.Layout | rust/rapace-core/src/descriptor.rs:149-164 | each field lies at its own offset among the 64 bytes |
| Descriptor.LittleEndian | rust/rapace-core/src/descriptor.rs:149-164 | the four bytes of a field are its base-256 digits, least significant first |
| Descriptor.SampleBytes | docs/content/spec/compliance.md:293-310 | the documented sample request encodes to the documented bytes |
| Descriptor.FlagIsBit | rust/rapace-core/src/flags.rs:13-64 | a flag is contained exactly if its own bit is set, at the positions the wire format gives |
| Descriptor.WithInlinePayload | rust/rapace-core/src/frame.rs:106-119 | up to 16 bytes are stored in the descriptor and read back unchanged, more are refused; slot, generation, offset and length describe them and no other field changes |
| Descriptor.WithPooledPayload | rust/rapace-core/src/frame.rs:134-143 | a pooled payload is read back unchanged; the descriptor has its length and the fields that no payload touches are kept |
| ByteStreamTransport.StreamTransport.SendFrame | rust/rapace-core/src/transport/stream.rs:119-148 | writes the length, the descriptor and the payload unless closed |
| ByteStreamTransport.StreamTransport.RecvFrame | rust/rapace-core/src/transport/stream.rs:150-218 | reads one frame off the stream, with its error cases |
| ByteStreamTransport.Arrive | rust/rapace-core/src/transport/stream.rs:183-216 | a received frame has the payload read, a descriptor that describes it, and the header fields sent |
| ByteStreamTransport.ArrivesUnchanged | rust/rapace-core/src/transport/stream.rs:183-216 | a frame whose descriptor describes its payload, small ones inside, arrives equal in every field |
| ByteStreamTransport.BrokenOff | rust/rapace-core/src/transport/stream.rs:157-194 | a stream that breaks off inside a frame yields none: closed within the length, an error after it |
| ByteStreamTransport.ShortLengthRefused | rust/rapace-core/src/transport/stream.rs:164-173 | a length below 64, and no other, is refused |
| ByteStreamTransport.SentIsReceived | rust/rapace-core/src/transport/stream.rs:119-218 | a frame that was sent is received with its payload and nothing else exactly if its length fits 32 bits |
| ByteStreamTransport.LinkPreserves | rust/rapace-core/src/transport/stream.rs:119-218 | a stream of frames is read back frame by frame, in order |
| TunnelEndToEnd.ChunkFrame | rust/rapace-core/src/session.rs:827-848 | a chunk's frame has its channel, message id, bytes and the DATA flag, method 0 and no deadline, with the bytes inside the descriptor exactly up to 16 |
| TunnelEndToEnd.CloseFrame | rust/rapace-core/src/session.rs:855-876 | the closing frame is empty, carries DATA and EOS, and has its channel and message id |
| TunnelEndToEnd.Sender.SendAll | rust/rapace-core/src/session.rs:827-876 | any sequence of chunk, close and other sends writes the stream of their frames, with message ids counted on |
| TunnelEndToEnd.MessageIds | rust/rapace-core/src/session.rs:416-418 | a chunk or close carries the first message id plus the number taken before it, modulo 2^64 |
| TunnelEndToEnd.MessageIdsAreUnique | rust/rapace-core/src/session.rs:416-418 | no two of up to 2^64 calls share a message id |
| TunnelEndToEnd.SentArrivesUnchanged | rust/rapace-core/src/transport/stream.rs:119-218 | what a tunnel sends is handed on by the peer's transport equal in every field |
| TunnelEndToEnd.StreamIsCut | rust/rapace-core/src/session.rs:586-636 | a tunnel registered before its first frame streams all frames received on its channel up to the first EOS |
| TunnelEndToEnd.CutCarriesWritten | rust/rapace-core/src/session.rs:827-876 | the frames of a tunnel carry exactly the bytes written before it was closed, and end exactly if it was |
| TunnelEndToEnd.BytesReadAreBytesWritten | rust/rapace-core/src/tunnel_stream.rs:112-224 | through sender, byte stream, demux loop and reader, the bytes read are the first of the bytes written, and at end of file all of them |
| TunnelEndToEnd.ClosedTunnelIsReadToTheEnd | rust/rapace-core/src/tunnel_stream.rs:112-224 | once a closed tunnel's frames are all delivered, enough reads into non-empty buffers return every byte written and then end of file |
| TunnelEndToEnd.UndisturbedTunnelDelivers | rust/rapace-core/src/session.rs:555-636 | whatever else the connection carries, a peer that listens on a tunnel from the start reads exactly the bytes written to it before it was closed |
| Framing.WriteFrame | typescript/src/conformance-runner.ts:81-96 | fills the buffer with length, descriptor and external payload, and fails exactly when the length does not fit |
| Framing.ReadWritten | typescript/src/conformance-runner.ts:54-96 | a written frame is read back with its external payload, and the bytes behind it remain |
| Framing.RoundTrip | typescript/src/conformance-runner.ts:54-96 | a frame survives exactly if it carries no bytes beside an inline payload |
| Framing.LengthDecides | typescript/src/conformance-runner.ts:54-62 | bytes announced by a length are waited for first; only then is a length below 64 an error |
| Framing.DrainInParts | typescript/src/conformance-runner.ts:240-265 | parsing what arrived and then the rest with more bytes is parsing everything at once, for any split |
| Framing.TooShortIsFinal | typescript/src/conformance-runner.ts:60-62 | a frame shorter than a descriptor blocks the stream for good |
| Framing.ParsesWhatArrived | typescript/src/conformance-runner.ts:250-265 | after any number of bytes of an encoded list exactly the fully arrived frames are parsed, and the rest is the incomplete one |
| Framing.ParsesAll | typescript/src/conformance-runner.ts:250-265 | all bytes give all frames and an empty buffer |
| Framing.ConformanceRunner.OnData | typescript/src/conformance-runner.ts:240-243 | a data event, split anywhere, keeps call number i matched with frame number i of the input |
| Framing.ConformanceRunner.ProcessBuffer | typescript/src/conformance-runner.ts:250-265 | hands every complete frame to the oldest waiter or the queue and keeps the incomplete bytes |
| Framing.ConformanceRunner.Recv | typescript/src/conformance-runner.ts:281-297 | takes the oldest queued frame or waits behind the earlier calls |
| Framing.Run | typescript/src/conformance-runner.ts:240-297 | for every split of well-formed frames and every schedule of receive calls, call i gets frame i, and waiters exist only with an empty queue |
| Registry.ComputeMethodId | rust/rapace-registry/src/lib.rs:257-279 | the three-part loop is one FNV-1a fold over the full name, folded to 32 bits |
| Registry.ComputeMethodIdInOneLoop | typescript/src/rapace/method-id.ts:18-36 | the TypeScript client computes the same id with one loop and another fold |
| Registry.FoldsAgree | typescript/src/rapace/method-id.ts:33-35 | folding by a mask and folding by truncation give the same 32 bits |
| Registry.PublishedVectors | rust/rapace-registry/src/lib.rs:257-276 | the hash gives the published 64-bit FNV-1a values of "", "a" and "foobar" |
| Registry.FullNameParts | rust/rapace-registry/src/lib.rs:268-269 | the name hashed is service name, full stop, method name |
| Registry.ServiceBuilder.AddMethodInner | rust/rapace-registry/src/lib.rs:322-366 | indexes the method under its hash, and panics exactly if the id is taken |
| Registry.StepInv | rust/rapace-registry/src/lib.rs:99-381 | every registration step, panics and discarded builders included, keeps both indexes in agreement and service ids distinct |
| Registry.AddedIsFound | rust/rapace-registry/src/lib.rs:322-381 | a method added to a builder is found by name and by its hash, with its streaming mark, from the moment the service is finished until one of its name is finished again |
| Registry.FoundWasAdded | rust/rapace-registry/src/lib.rs:322-381 | conversely, whatever is found by name was added to the builder that last finished under that service name |
| Registry.IndexesAgree | rust/rapace-registry/src/lib.rs:166-181 | every stored method resolves to the hash of its full name and is found again by it |
| Registry.HitsAreGenuine | rust/rapace-registry/src/lib.rs:173-176 | a hit by id has the queried id and is the method stored under the indexed names |
| Registry.IdsAreUnique | rust/rapace-registry/src/lib.rs:166-181 | two stored methods resolve to the same id exactly if they are the same method |
| Registry.IdsKeepTheirMeaning | rust/rapace-registry/src/lib.rs:322-381 | an id found in an earlier state names the same service and method whenever it is found later |
| Registry.DotsAreAmbiguous | rust/rapace-registry/src/lib.rs:257-279 | full names that differ only in which dot separates them have one id |
| PooledWriting.PooledWriter.WriteByte | rust/rapace/src/lib.rs:285-309 | appends one byte to what was written, moving to the heap when the buffer is full |
| PooledWriting.PooledWriter.WriteBytes | rust/rapace/src/lib.rs:311-340 | appends bytes to what was written, moving to the heap when they do not fit |
| PooledWriting.Serialize | rust/rapace/src/lib.rs:251-340 | the result is the concatenation of all writes, and leaves the pool exactly if it exceeds the initial capacity |

## Left out

- Asynchrony: each session method is one atomic step. Only the ring's producer and consumer are interleaved, under sequentially consistent memory.
- Environment limits, the clock, deadlines and timeouts: limits are parameters of the model; call and receive timeouts and deadline checks are not modelled.
- Transport failures after a frame was accepted: the session's transport always takes the frame, and the handshake's links lose nothing.
- SessionRefinement.PruningRefinesModel: is about runs that receive nothing but control frames on channel 0, because the channel 0 entry of the pruning session, which the unpruned one does not have, would take a place in the window; `PruningIsInvisibleIff` covers those runs too.
- Control payloads are taken as already decoded; the postcard format is not part of this model.
- Backpressure: the tunnel receiver's 64-chunk limit is not modelled, so a blocked demux loop is not either.
- Demultiplexer: registering a second tunnel on a channel panics; such runs are excluded. The spawned response sender behind the dispatcher and the error replies it builds are not modelled.
- Demultiplexer.WaiterHasOneFate: is about waiters whose channel is not used for another call, as the allocator guarantees for 2^31 calls.
- TunnelEndToEnd: the write half (`poll_write`, `poll_flush`, `poll_shutdown`) is represented by the frames `send_chunk` and `close_tunnel` emit; after a pending write the same buffer may be sent again, so no claim is made about it.
- Handshake: the list of the peer's methods and parameters in the Hello, which no check looks at.
- DescriptorRing.ExecuteAndVerify: operation lists of 2^64 or more, which no Rust slice can hold, are excluded.
- DescriptorRing.CapacityIsPowerOfTwo: a requested capacity above 2^31 overflows `next_power_of_two`; the model gets 0 there, as an unchecked build does, and clamps it to 4, where a checked build panics.
- The standalone `ShmProducer` and `ShmConsumer` of `fuzz/src/shm_integration.rs`: they are the two halves of `ShmSession` without the shared slab.
- Framing: receive timeouts, because a timed-out call is not removed from the waiters; the process handling and the simplified Hello encoder around it.
- Registry: documentation, argument lists and shapes of methods, which nothing computes with; the process-wide instance and its lock. A full service counter is modelled as the panic of a checked build.
- PooledWriting: the buffer pool itself and the growth policy of heap buffers.
- The memory layout and lock-free code of the shared-memory primitives, doorbells, macros, code generation, demos and the other language runtimes.
