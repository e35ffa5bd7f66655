# Verified model of the relay

This project models the protocols underneath a WebRTC audio relay and proves what they promise.
Every file is one module. Code that updates objects step by step is a class or a method with loops,
proved against a specification function; code that runs concurrently is a transition system whose
actions are single atomic loads, stores or locked sections, and its theorems hold for every finite
sequence of actions.

- **Downlink forwarding**: `PacketPool` (577 slots shared by lock-free producers, queue, worker,
  repair cache and Stop), `EnqueueCalls` (what becomes of its calls and packets), `ForwardTranslator`
  (RTP renumbering, fields of section 5.1 of RFC 3550 and extended numbers of appendix A.1 of RFC
  3550), `ReorderWindow`, `RetransmissionCache`.
- **Fencing**: `WriterLease` (leased control-writer term), `SessionRecords` and `RelayState` (stored
  Session state and its version), `MediaPlacement` (media terms acquired over an unreliable network),
  `EventBus`.
- **One-use grants**: `MemoryStore` (transactions, index, cascades, expiry), `Redemption`,
  `RedemptionRuns`, `InvitationAllocation`.
- **Lock-free publication and hand-over**: `PacketLog`, `CaptureSeqlock`, `CaptureClock`, `AudioBus`,
  `AudioDelivery` (what the hand-over does for listeners).
- **Names**: `WordSets`, `Phrases`, `NameText`, `ReadableNames`, `MixedRadix`, `ComposedNames`,
  `NameEnumeration`.
- **Codecs and admission**: `RedPayload` (section 3 of RFC 2198), `RedListener`, `OpusIngress`
  (section 3.1 of RFC 6716).
- `Collections` and `Arithmetic` hold shared facts about counting, sets and division, `RtpFields` the
  widths of wire fields.

`dafny verify dfyconfig.toml` checks all of it.

Conventions. Go atomics are sequentially consistent, so one load or store is one step. Clocks are
arbitrary integers given to each action. Random identifiers are parameters that never repeat; a set of
values drawn so far records this. Hashes, signatures and encodings are opaque: a digest stands for the
text it covers, and signed or encoded bytes are arbitrary given strings. 64-bit counters are unbounded;
16- and 32-bit RTP fields wrap explicitly. Bitwise operations on disjoint bits are written as sums, and
the name bitsets use recursive bit functions on natural numbers. A nil slice and an empty slice are the
same sequence.

Where the code does not meet a property everywhere, the project proves the exact condition and gives
an input that shows the difference:

- the rebase step follows elapsed time unless its 64-bit product wraps to a plausible gap
  (`StepFollowsElapsedTime`, `LongSilenceMisread`);
- a retransmission is granted too early if and only if the last grant was made at clock instant zero
  and grants are left (`GrantedTooEarlyIff`, `InstantZeroIsNotThrottled`);
- reordering within the bounds of the window is repaired if and only if the smallest packet has been
  received when the first one is sent, because the first packet is never held back
  (`RepairedCompletely`, `FirstPacketIsNotHeldBack`);
- a loop that ends clears its successor's source if both calls attached the same source
  (`DetachKeepsSuccessor`, `SharedSourceIsLost`);
- a reconnect timer that expired before a call stopped it closes the bus under that call's loop
  (`EarlierTimerClosesBusIff`, `ExpiredTimerEndsLaterLoop`);
- a conversion to NTP and back is exact only in era 0 and for fractions divisible by 5^9 ns
  (`NtpRoundTrip`);
- RED round trips need seven-bit payload types (`ParseOfEncode`), and a listener that sent a frame of
  more than 1023 bytes refuses what follows (`SentCompletelyIff`, `LongFrameJams`).

The comment on `loopDone` says the field is nil when no loop runs; the code leaves the closed channel
there, and the model follows the code.

## Model

| member | source | states |
|---|---|---|
| PacketPool.OneHolderPerClaimedSlot | internal/media/downlink/pacer.go:280-328 | in every interleaving of producers, worker, NACKs and Stop a slot is claimed exactly when it has one holder, and an unclaimed slot has none |
| PacketPool.PacketIntact | internal/media/downlink/forward_pacer.go:123-176 | a packet being written or retransmitted still has the content its producer stored, whatever producers did meanwhile |
| PacketPool.ScanFailsOnlyUnderLoad | internal/media/downlink/pacer.go:289-301 | a claim scan finds nothing only if packets queued and slots held by producers when it began, plus claims made meanwhile, reach the queue capacity |
| PacketPool.LoneScanFailsOnlyOnFullQueue | internal/media/downlink/pacer.go:23-25 | a producer that is alone during its scan fails only if the queue was full when the scan began: the sizing 512 + 2*32 + 1 suffices |
| PacketPool.ClaimedBound | internal/media/downlink/pacer.go:23-25 | the number of claimed slots is bounded by what the queue, window, cache and producers can hold |
| PacketPool.StopLeavesNothing | internal/media/downlink/pacer.go:330-350 | when Stop has returned, no call is admitted, every slot is free, queue, window and cache are empty and everything enqueued is completed |
| PacketPool.NothingLost | internal/media/downlink/forward_pacer.go:32-37 | at every moment accepted packets are exactly completed, queued, or held by the worker or Stop; the published counter lags only by calls between their two steps |
| PacketPool.GateWord | internal/media/downlink/pacer.go:266-275 | the one 64-bit admission word behaves as a closed flag plus a count under Or, Add(1) and Add(2^64-1) |
| PacketPool.StepInv | internal/media/downlink/pacer.go:253-350 | every atomic step of every participant keeps the conservation, counting, phase and scan invariants |
| PacketPool.RunInv | internal/media/downlink/pacer_scheduler.go:10-16 | the invariants hold after every sequence of atomic steps |
| EnqueueCalls.EveryCallHasOneFate | internal/media/downlink/pacer.go:253-328 | over any interleaving a call that returned met exactly one fate, once: queued, gate closed, packet out of bounds, no slot left by its scan, or a full queue at its push |
| EnqueueCalls.PushQueuesIff | internal/media/downlink/pacer.go:313-326 | a filled slot enters the queue behind everything else if and only if fewer than 32 packets are queued; otherwise the call goes on to give the slot back |
| EnqueueCalls.QueueIsFifo | internal/media/downlink/pacer.go:313-326 | what ever entered the queue is what worker and Stop took out, in that order, followed by what is in it |
| EnqueueCalls.CallNeverBlocks | internal/media/downlink/pacer.go:266-328 | in every reachable state a call's own next step brings its return nearer, within 586 steps if the gate is left alone, and nobody else moves it |
| EnqueueCalls.StopNeverBlocks | internal/media/downlink/pacer.go:330-350 | once no call is inside, the next step of Stop or of the worker always brings the return of Stop nearer |
| EnqueueCalls.ReceiveTakesOldest | internal/media/downlink/forward_pacer.go:53-61 | the worker takes the oldest queued packet whenever its window has room |
| EnqueueCalls.PopWrites | internal/media/downlink/forward_pacer.go:101-108 | the packet popped from the window is the one written, and the others stay |
| EnqueueCalls.SentIsCached | internal/media/downlink/retransmission_cache.go:39-49 | a sent packet replaces exactly the cache entry of its residue class |
| EnqueueCalls.ResendBorrows | internal/media/downlink/pacer_retransmission.go:53-69 | a retransmission borrows the cached packet and changes nothing else |
| EnqueueCalls.ScansRotate | internal/media/downlink/pacer.go:288-291 | every claim scan starts one slot after the previous one, on a 32-bit counter |
| ForwardTranslator.RtpForwardTranslator.TranslateAt | internal/media/downlink/forwarder.go:32-94 | the in-place translation equals the specified translator step and rewrites the packet accordingly; reset is reported exactly on a source switch |
| ForwardTranslator.RtpForwardTranslator.TimestampStep | internal/media/downlink/forwarder.go:48-61 | the computed step is the specified rebase step, with 64-bit wrap-around of the elapsed product |
| ForwardTranslator.RtpForwardTranslator.RebaseOnto | internal/media/downlink/forwarder.go:45-71 | a source switch re-bases offsets, last input and last output as specified |
| ForwardTranslator.RtpForwardTranslator.Continue | internal/media/downlink/forwarder.go:73-93 | a packet of the attached source is shifted and only a forward step updates the memory |
| ForwardTranslator.SequenceUnwrapper.Unwrap | internal/media/downlink/forwarder.go:141-157 | the extended number is the specified extension and the highest one is remembered |
| ForwardTranslator.PrepareForwardItem | internal/media/downlink/forward_pacer.go:112-121 | translator and unwrapper advance together as specified |
| ForwardTranslator.NumberingStaysAligned | internal/media/downlink/forwarder.go:32-94 | for every stream with arbitrary source switches the last output sequence stays congruent mod 2^16 to the highest extended number |
| ForwardTranslator.AttachmentStartsAtNext | internal/media/downlink/forwarder.go:45-71 | a new attachment starts at exactly the highest extended number plus one and moves the timestamp of the newest packet by a positive multiple of the measured frame, the ideal one for the time between the two arrivals unless the product wraps |
| ForwardTranslator.RemembersNewest | internal/media/downlink/forwarder.go:32-94 | from the inputs alone: the translator remembers the packet, arrival and output of the newest input, and the last plausible samples per frame between successive newest inputs of one attachment, or 960 |
| ForwardTranslator.AttachmentFollowsArrivals | internal/media/downlink/forwarder.go:45-71 | a new attachment is placed the nearest multiple of the frame to the time since the newest packet arrived, or one frame later if that time is unknown, not positive, at most one frame, or too long for a timestamp |
| ForwardTranslator.FirstAttachmentIsUntouched | internal/media/downlink/forwarder.go:33-44 | before the first switch of source every packet goes out as it came in |
| ForwardTranslator.DifferencesPreserved | internal/media/downlink/forwarder.go:73-93 | within an uninterrupted attachment output differences equal input differences mod 2^16 and 2^32 |
| ForwardTranslator.StepIsPositiveMultiple | internal/media/downlink/forwarder.go:48-61 | every rebase advances by a positive multiple of the nominal frame |
| ForwardTranslator.NearestIsNear | internal/media/downlink/forwarder.go:55-58 | the quantised step is the multiple of the frame nearest to the elapsed samples, the upper of two equally near |
| ForwardTranslator.StepIsNearest | internal/media/downlink/forwarder.go:48-61 | without wrap-around the step is that nearest multiple if it is more than one frame and fits 32 bits, and one frame otherwise |
| ForwardTranslator.StepFollowsElapsedTime | internal/media/downlink/forwarder.go:52-60 | the step equals the one of unbounded arithmetic if and only if the 64-bit product does not wrap to a plausible gap |
| ForwardTranslator.LongSilenceMisread | internal/media/downlink/forwarder.go:55-58 | a concrete gap of about 4.45 days after which the wrapped product gives 1920 samples instead of 960 |
| ForwardTranslator.HighestIsMaximum | internal/media/downlink/forwarder.go:141-157 | extended numbers never exceed the highest, which one of them attains |
| ForwardTranslator.LosslessStaysConsecutive | internal/media/downlink/forwarder.go:12-94 | without loss inside attachments the output is consecutive across any number of reconnects and wraps |
| ReorderWindow.SortPacedPacketsByExtendedSequence | internal/media/downlink/pacer_scheduler.go:227-237 | the in-place insertion sort leaves the array equal to the specified stable sort of its old contents |
| ReorderWindow.InsertInPlace | internal/media/downlink/pacer_scheduler.go:228-236 | the inner loop inserts one element into the sorted prefix |
| ReorderWindow.SortIsStableSort | internal/media/downlink/pacer_scheduler.go:227-237 | the specified sort is ascending, a permutation, and keeps the order of equal numbers |
| ReorderWindow.ForwardWindow.Take | internal/media/downlink/forward_pacer.go:53-61 | receiving appends to the window |
| ReorderWindow.ForwardWindow.SortHeld | internal/media/downlink/forward_pacer.go:63-63 | sorting the window in place leaves the stable sort of what was held |
| ReorderWindow.ForwardWindow.DrainQueue | internal/media/downlink/forward_pacer.go:53-63 | takes queued packets up to the capacity of the window, whose new contents are the old ones with each taken packet inserted in order |
| ReorderWindow.ForwardWindow.GapDeadline | internal/media/downlink/forward_pacer.go:67-73 | the deadline is 40 ms after the oldest arrival held |
| ReorderWindow.ForwardWindow.MayStopWaiting | internal/media/downlink/forward_pacer.go:65-99 | waiting ends exactly without a gap, with a full window, or at the deadline |
| ReorderWindow.ForwardWindow.ReleaseFirst | internal/media/downlink/forward_pacer.go:101-107 | the first element leaves, the rest moves up, and the highest released number is kept |
| ReorderWindow.ReceiveThenSort | internal/media/downlink/forward_pacer.go:53-63 | sorting after several receives equals inserting each one in order |
| ReorderWindow.RunIsSound | internal/media/downlink/forward_pacer.go:39-110 | over every run received packets are exactly released plus held, and the window is sorted and bounded |
| ReorderWindow.ReleasesSmallest | internal/media/downlink/forward_pacer.go:65-107 | every release is the smallest number held; it crosses a gap only from a full window or after a held packet waited 40 ms |
| ReorderWindow.ReceivesIff | internal/media/downlink/forward_pacer.go:53-61 | a packet is taken exactly if fewer than 33 are held |
| ReorderWindow.ReleasesIff | internal/media/downlink/forward_pacer.go:65-107 | a packet goes out exactly if one is held and nothing has gone out yet, no gap lies in front, the window is full, or a held packet has waited 40 ms |
| ReorderWindow.LastIsHighest | internal/media/downlink/forward_pacer.go:104-107 | the remembered number is the highest that ever went out |
| ReorderWindow.RepairedInOrder | internal/media/downlink/forward_pacer.go:14-17 | with losses allowed, a stream of distinct numbers reordered by fewer than 33 packets and less than 40 ms, whose smallest packet is received before the first one is sent, goes out in strictly ascending order at every moment, and everything held lies above it |
| ReorderWindow.RepairedCompletely | internal/media/downlink/forward_pacer.go:14-17 | once nothing is held, every packet of such a stream has gone out exactly once, and in ascending order if and only if the smallest was received before the first release that follows a receive |
| ReorderWindow.SmallestGoesFirstIff | internal/media/downlink/forward_pacer.go:40-66 | the first release after a receive sends a packet, and it is the smallest of the stream if and only if the smallest had been received by then |
| ReorderWindow.FirstReceivedGoesFirst | internal/media/downlink/forward_pacer.go:65-107 | a stream whose first packet is its smallest meets that condition |
| ReorderWindow.FirstPacketIsNotHeldBack | internal/media/downlink/forward_pacer.go:65-66 | a run within both bounds whose first packet goes out before a smaller one arrives |
| ReorderWindow.LosslessIsConsecutive | internal/media/downlink/forward_pacer.go:14-17 | without loss and under the same condition the numbers that go out are consecutive from the first |
| RetransmissionCache.PacketCache.Replace | internal/media/downlink/retransmission_cache.go:39-49 | storing replaces exactly the slot of the residue class and resets its throttle |
| RetransmissionCache.PacketCache.Clear | internal/media/downlink/retransmission_cache.go:53-62 | clearing empties every slot |
| RetransmissionCache.PacketCache.SetRTT | internal/media/downlink/retransmission_cache.go:64-68 | whatever is reported the throttle stays within its bounds; a round-trip time whose double lies within them gives exactly that double, and others the nearer bound |
| RetransmissionCache.PacketCache.Load | internal/media/downlink/retransmission_cache.go:70-95 | the answer and the new throttle state are the specified ones |
| RetransmissionCache.RunMirrors | internal/media/downlink/retransmission_cache.go:39-95 | over every run each slot mirrors the latest store of its residue class and the grants made from it |
| RetransmissionCache.HitIffLatest | internal/media/downlink/retransmission_cache.go:70-75 | a number is found exactly when the latest store in its residue class mod 512 had that number |
| RetransmissionCache.Last512Found | internal/media/downlink/retransmission_cache.go:39-49 | the last 512 consecutively numbered packets can all be found, across the wrap from 65535 to 0 |
| RetransmissionCache.GrantedIff | internal/media/downlink/retransmission_cache.go:70-94 | over any run a request is granted if and only if the latest store of its residue class has that number, fewer than three grants, and a last grant that is absent, at instant zero, or at least the throttle in force ago |
| RetransmissionCache.GrantedTooEarlyIff | internal/media/downlink/retransmission_cache.go:86-88 | a packet granted before is granted again within the throttle if and only if it has grants left, the last one was at instant zero, and the clock has not reached the throttle |
| RetransmissionCache.GrantsAreSpaced | internal/media/downlink/retransmission_cache.go:76-94 | one stored packet is granted at most three times, each at least the throttle in force, and so at least 20 ms, after the previous one unless that was at instant zero |
| RetransmissionCache.InstantZeroIsNotThrottled | internal/media/downlink/retransmission_cache.go:86-88 | the exception is real: a grant at instant zero does not throttle the next one |
| WriterLease.ControlStore.NewService | access/service.go:123-178 | a start is refused exactly by a newer schema or another group's running lease and then changes nothing; otherwise the configured group, or "default", holds fence and lease |
| WriterLease.ControlStore.Update | access/service.go:190-220 | an update is admitted exactly for the current writer, and then renews the lease |
| WriterLease.ControlStore.ResetRestoredStore | access/service.go:496-513 | after a reset no instance of another incarnation is the writer, and any group may start at once, as term 1 of the fresh incarnation |
| WriterLease.TermDeterminesWriter | access/service.go:143-155 | within one incarnation a term determines the writer group |
| WriterLease.TermGrows | access/service.go:129-178 | over any run the term only grows within an incarnation, and an incarnation that was left never returns |
| WriterLease.LeaseProtects | access/service.go:149-156 | until a lease runs out, whatever lease durations the instances use, the leased group stays the writer and every start by another group changes neither namespace nor instances |
| WriterLease.TakeoverOnlyAfterExpiry | access/service.go:149-155 | within an incarnation the writer changes only by a start that finds the stored lease expired, and the term rises by exactly one |
| WriterLease.RenewalCanShorten | access/service.go:143-156 | a run in which a second instance of the same group with a shorter duration shortens the stored lease, so that another group takes over earlier |
| WriterLease.ActingLeases | access/service.go:156-156 | committing or starting leases the namespace for the acting group |
| WriterLease.DisplacedForGood | access/service.go:211-220 | an instance that lost the fence never holds it again, not even after a reset |
| WriterLease.NoCommitAfterFence | access/service.go:190-210 | no admitted update ever comes from an instance that was fenced before |
| WriterLease.StartsIff | access/service.go:129-178 | over any run: exactly when a start is refused, and otherwise the incarnation, term, group and lease it leaves, from term 1 on a new store to the next term on a takeover |
| WriterLease.CommitsIff | access/service.go:190-220 | an instance commits if and only if since it started there was no reset and no other group took over |
| MediaPlacement.RelayProcess.EnsureMediaWriter | internal/server/access_authority.go:46-97 | the decision (call, wait, recheck, refuse) is the specified one, and registry entry and outgoing request change exactly as in the deployment step of this process |
| MediaPlacement.RelayProcess.Complete | internal/server/access_authority.go:90-96 | filling an entry with the reply is the deployment step that delivers the reply; other Sessions keep their entries |
| MediaPlacement.RelayProcess.AfterPush | internal/server/control_state_sync.go:101-116 | the Session is dropped exactly on absence or a fence; a fence keeps the entry as a tombstone, absence forgets it as the deployment step on a missing record does |
| MediaPlacement.RelayProcess.MediaWriterTerm | internal/server/access_authority.go:98-111 | the term returned is exactly the one under which the deployment lets this process send a snapshot |
| MediaPlacement.TermsAndEpochsMatch | access/authority.go:52-77 | with lost, delayed and repeated messages the media term only grows while the Session lives, each term belongs to one epoch and each epoch to one term |
| MediaPlacement.PlacedWasGranted | internal/server/access_authority.go:90-97 | a process that believes it is placed was granted that term |
| MediaPlacement.DisplacedForGood | access/service.go:406-408 | a displaced epoch stays displaced and no snapshot naming it ever replaces the stored observation |
| MediaPlacement.ObservationsInTermOrder | access/service.go:388-440 | observations that were stored came from granted placements, in term order |
| MediaPlacement.RunInv | internal/server/access_authority.go:35-97 | the placement invariants hold in every reachable system state |
| MediaPlacement.ExecuteAnswers | access/authority.go:52-77 | executing an acquire call: the current holder gets its term again, whoever repeats the current term gets the next one and the record names its epoch, anybody else is refused |
| MediaPlacement.CurrentRequestIsGranted | internal/server/access_authority.go:46-97 | a process that asks for the term it read is granted the next term if nobody was granted one before its call is executed |
| MediaPlacement.RetryGetsSameTerm | access/authority.go:62-65 | after a failure a process asks for the same term again, and gets its placement back if its earlier call had taken it |
| MediaPlacement.MetadataIsCurrent | access/authority.go:34-47 | metadata show the number of placements granted so far and the current epoch; a deleted Session forgets the entry |
| MediaPlacement.ReplyIsBelieved | internal/server/access_authority.go:90-97 | the reply that reaches a waiting process decides its status |
| MediaPlacement.SentIff | internal/server/access_authority.go:98-111 | a snapshot leaves a process exactly if the process is placed, under its term and epoch |
| MediaPlacement.ObservedIff | access/service.go:388-440 | over any run a sent snapshot replaces the stored observation exactly if it carries the current term and epoch, is not older, and names only required buses |
| MediaPlacement.OtherStepsMean | internal/server/access_authority.go:46-97 | a timeout breaks a pending acquisition only; deletion removes the record; maintenance is the record's own operation |
| RelayState.ValidIdentifier | access/state.go:104-118 | accepts exactly the bounded identifiers |
| RelayState.CheckBuses | access/state.go:62-74 | accepts exactly valid, distinct buses and collects their identifiers |
| RelayState.CheckSubscriptions | access/state.go:75-90 | accepts exactly valid, distinct subscriptions of known buses |
| RelayState.ValidateRelaySnapshot | access/state.go:53-91 | accepts a snapshot if and only if it satisfies the whole contract |
| RelayState.AscendingIsUnique | access/state.go:93-102 | two ascending lists with the same elements are equal |
| RelayState.CanonicalIffSameAttachments | access/state.go:93-102 | two valid snapshots normalise alike if and only if they have the same attachments |
| RelayState.LessAtFirstDifference | access/state.go:96-99 | texts are ordered by the first character in which they differ, or by length |
| RelayState.MixIsAlwaysThere | access/state.go:75-90 | one more listener of the mix keeps subscriptions valid, whatever buses there are |
| SessionRecords.Service.GetContext | access/service.go:272-293 | a read keeps an observation exactly if it is of the current term and within its lifetime, drops it otherwise, and returns the public state of the stored record |
| SessionRecords.Service.AcquireRelayWriter | access/authority.go:52-77 | for a live Session and a valid epoch, granted if and only if the epoch already holds a term, which is then returned unchanged, or the caller names the stored term, which then rises by one with an empty observation of the new epoch |
| SessionRecords.Service.ApplyRelayState | access/service.go:388-440 | an observation is applied, ignored or refused as specified, on the loops below; a refusal changes nothing |
| SessionRecords.Contains | access/service.go:464-470 | the search loop decides membership |
| SessionRecords.ContainsAll | access/service.go:413-417 | the containment loop decides whether every bus is a required one |
| SessionRecords.AnythingActive | access/service.go:425-428 | the loop decides whether there is a subscription or a bus with an active source |
| SessionRecords.SourceIsActive | access/service.go:454-459 | the inner loop decides whether the bus is there with an active source |
| SessionRecords.AllActive | access/service.go:452-463 | the readiness loops decide whether every required bus has an active source |
| SessionRecords.StateOf | access/service.go:449-463 | the public state, ready exactly if every required bus has an active source |
| SessionRecords.Service.ForgetObservations | access/service.go:160-173 | a starting writer clears every observation, and revises exactly the Sessions that had one |
| SessionRecords.ObservationStoredIff | access/service.go:388-440 | a valid observation is fenced, ignored, refused or stored in exactly these cases, with every field of the new record; only activity extends the Session |
| SessionRecords.IssueExtends | access/service.go:377-379 | issuing a token extends the Session and changes nothing visible |
| SessionRecords.VersionIsFaithful | access/service.go:448-463 | StateRevision never decreases and equal revisions mean equal public states |
| SessionRecords.StaysCanonical | access/service.go:388-440 | stored attachments stay in canonical order |
| SessionRecords.ChangeIffDifferent | access/service.go:409-432 | an accepted observation is a change exactly when revision or attachments differ, in whatever order |
| SessionRecords.ResendIsNoChange | access/state.go:93-102 | re-sending the same attachments in any order at the same revision is not a change |
| EventBus.Hub.SubscribeAfter | access/event_bus.go:35-52 | a subscription is refused exactly when closed or full, and starts with the latest state if that is newer |
| EventBus.Hub.Unsubscribe | access/event_bus.go:53-60 | the subscriber is detached, nothing else changes, and no later publish touches its channel |
| EventBus.Hub.Publish | access/event_bus.go:72-94 | a stale or late publish changes nothing; otherwise every attached channel is offered the event |
| EventBus.Hub.Close | access/event_bus.go:95-107 | closing detaches everyone once, and no later publish changes anything |
| EventBus.Hub.Receive | access/event_bus.go:14-17 | receiving empties the one-slot mailbox |
| EventBus.ReceivedInOrder | access/event_bus.go:19-20 | in every interleaving every event a receiver got is above its start, and revisions strictly increase |
| EventBus.NewestReachesEveryone | access/event_bus.go:72-94 | between publishes the newest state above its start is the one waiting for, or last received by, every attached subscriber |
| EventBus.PublisherNeverBlocks | access/event_bus.go:84-92 | whatever receivers do, the next step of a publish is possible and brings its end nearer |
| EventBus.CompletedStep | access/event_bus.go:79-93 | every publisher step keeps the promise of the sequential publish |
| EventBus.QuietPublishIsPublished | access/event_bus.go:72-94 | a publish during which nobody receives ends in exactly the state of the sequential publish |
| EventBus.RunInv | access/event_bus.go:29-107 | the channel and publisher invariants hold in every reachable state |
| EventBus.PublishBeginsIff | access/event_bus.go:72-83 | a publish takes effect exactly on an open bus with a newer revision, and then every attached subscriber is visited |
| EventBus.PublishedReaches | access/event_bus.go:79-93 | after a sequential publish the event waits for every attached subscriber that had nothing as new; every other channel is untouched |
| EventBus.OtherStepsIff | access/event_bus.go:35-107 | subscribing, unsubscribing, closing and receiving take effect exactly when they should |
| MemoryStore.Transaction.DeleteGrant | access/storage/memory/memory.go:199-209 | a grant goes together with its two locators; nothing happens when cancelled or read-only |
| MemoryStore.Transaction.DeleteSession | access/storage/memory/memory.go:147-163 | unless cancelled, the Session goes with all its grants and receipts |
| MemoryStore.Transaction.PruneExpired | access/storage/memory/memory.go:235-255 | unless cancelled, what remains is the specified pruned store |
| MemoryStore.Transaction.PutSession | access/storage/memory/memory.go:137-146 | stores the row or reports why not |
| MemoryStore.Transaction.PutGrant | access/storage/memory/memory.go:172-198 | inserts a grant and its locators, or reports the specified refusal and changes nothing |
| MemoryStore.Transaction.PutReceipt | access/storage/memory/memory.go:215-231 | inserts a receipt, or reports the specified refusal and changes nothing |
| MemoryStore.Transaction.Apply | access/storage/memory/memory.go:98-255 | every write reports and does what is specified |
| MemoryStore.Store.Update | access/storage/memory/memory.go:58-89 | commits all writes of a callback, or, if it failed, was cancelled at any moment or the store is closed, nothing |
| MemoryStore.Store.View | access/storage/memory/memory.go:47-49 | refuses every write with the answer of a read-only transaction; succeeds exactly unless cancelled, closed or failed |
| MemoryStore.LookupIsScan | access/storage/memory/memory.go:164-171 | Grant(locator) finds a grant exactly if a scan of all grants would |
| MemoryStore.LocatorsAreUnique | access/storage/storage.go:33-41 | no two grants share a locator |
| MemoryStore.StorableIff | access/storage/memory/memory.go:172-194 | a grant can be stored exactly if it fits, is complete, has its Session, and a scan finds no grant with its identifier or under either locator |
| MemoryStore.StoredIsFound | access/storage/memory/memory.go:195-198 | a stored grant is found under both its locators, and every other locator finds what it found before |
| MemoryStore.ReceiptStorableIff | access/storage/memory/memory.go:215-231 | a receipt can be stored exactly if it fits, has its Session and an unused key |
| MemoryStore.PruneKeepsExactly | access/storage/memory/memory.go:235-255 | pruning keeps exactly the unexpired records of unexpired Sessions, unchanged, with the locators of the kept grants |
| MemoryStore.SessionCascade | access/storage/memory/memory.go:147-163 | row, grants, receipts removed one by one is one removal |
| MemoryStore.PruneCascade | access/storage/memory/memory.go:235-255 | the three pruning passes are one removal |
| MemoryStore.DoneIsConsistent | access/storage/memory/memory.go:137-255 | every write keeps index and ownership consistent |
| MemoryStore.ReachableIsConsistent | access/storage/storage.go:21-41 | every reachable store state is consistent |
| Redemption.RedeemIn | access/invitation.go:253-325 | the callback decides and writes exactly as specified unless cancelled |
| Redemption.Spend | access/invitation.go:276-324 | a first use answers, stores its receipt and deletes the grant, or is rejected as specified |
| Redemption.Earliest | access/invitation.go:314-319 | the receipt ends at the earliest of its bounds |
| Redemption.Consume | access/invitation.go:320-324 | receipt first, then the grant; a refused receipt leaves the grant |
| Redemption.Redeem | access/invitation.go:235-330 | a response is exposed only if the transaction committed; otherwise the store is unchanged |
| Redemption.EitherLocatorRedeems | access/invitation.go:236-282 | a live grant can be spent under alias, code, or the bare code |
| Redemption.RedeemedIff | access/invitation.go:253-325 | keyed or not, a grant is spent if and only if a scan finds it live under the locator with the request's code and an active Session, the response could be made and fits, and for a keyed request the key is unused and there is room for its receipt |
| Redemption.RedeemedReceipt | access/invitation.go:313-322 | the receipt is for this request with these bytes and ends at the earliest of receipt lifetime, grant, Session and the token's whole second |
| Redemption.KeyedRefusal | access/invitation.go:290-322 | a spendable keyed request is refused for capacity exactly if the receipts are full, and by storage exactly if its receipt is too large |
| Redemption.ReplayedIff | access/invitation.go:254-275 | a receipt answers if and only if it is stored under the key, was left by the same locator and code, has not expired, and its Session is active |
| Redemption.WellFormedIff | access/invitation.go:236-244 | exactly the requests that are looked at, and the code they carry |
| Redemption.InvitedCanAsk | access/invitation.go:236-244 | whoever has an invitation's code can ask for it under either locator |
| Redemption.CodeIff | access/invitation.go:332-338 | a code is 36 characters: hexadecimal digits in groups of 8, 4, 4, 4 and 12 |
| RedemptionRuns.EachGrantAnswersOnce | access/invitation.go:276-324 | over any run no grant and no join code is spent twice |
| RedemptionRuns.RepeatsAreIdentical | access/invitation.go:254-275 | any other response repeats, byte for byte, an earlier one to the same key, locator and code |
| RedemptionRuns.OneAnswerPerCode | access/invitation.go:235-330 | all responses obtained with one join code carry the same bytes |
| RedemptionRuns.RetryGivesSameBytes | access/invitation.go:254-275 | repeating a keyed request before its receipt expires, while its Session is active, gives the same bytes whatever happened in between |
| RedemptionRuns.ReceiptStays | access/storage/storage.go:41-41 | a receipt stays until it expires or its Session ends |
| RedemptionRuns.MismatchConsumesNothing | access/invitation.go:259-262 | reusing a live key for another locator or code conflicts and spends nothing |
| RedemptionRuns.RunInv | access/invitation.go:235-330 | the grant, receipt and response invariants hold in every reachable state |
| RedemptionRuns.LeavesReceiptIff | access/invitation.go:253-325 | a committed keyed first use leaves its receipt exactly if its grant can be spent and there is room for the receipt |
| RedemptionRuns.LiveInvitationIsRedeemed | access/invitation.go:253-325 | whatever happened in between, an unexpired, unspent invitation of a live Session is spent by a committed request for it |
| RedemptionRuns.CreatedIff | access/storage/memory/memory.go:172-198 | over any run a new invitation is stored exactly if it fits, is complete, has a live Session, and no live grant uses its code or name |
| RedemptionRuns.SessionSteps | access/storage/memory/memory.go:137-163 | a kept Session is stored as given; an ended one takes exactly its grants and receipts along |
| RedemptionRuns.AttemptIsAnswered | access/invitation.go:326-330 | a committed, well-formed attempt is answered exactly if it was not rejected, with the bytes decided on |
| InvitationAllocation.Allocate | access/invitation.go:118-171 | takes the first of 32 draws that collides with nothing, with three words exactly once eight two-word names were taken, ending with the Session or after 15 minutes; a failure stores nothing |
| PacketLog.Ring.Record | internal/session/packet_log.go:51-67 | recording appends to the history |
| PacketLog.Ring.Last | internal/session/packet_log.go:71-105 | with no writer running, returns exactly the last min(limit, count, 1000) entries; a negative limit means all |
| PacketLog.SnapshotIsFaithful | internal/session/packet_log.go:71-105 | while a writer runs, every entry returned is exactly the one recorded at a position of the window, positions ascend, and one is left out only if the writer has begun to record over it |
| PacketLog.RunInv | internal/session/packet_log.go:51-105 | the slot, writer and reader invariants hold at every atomic step |
| PacketLog.ReadWindow | internal/session/packet_log.go:71-83 | a read looks at exactly the last entries recorded when it was called, as many as asked for and at most 1000, and keeps to them |
| PacketLog.WriterNeverBlocks | internal/session/packet_log.go:51-67 | an entry is begun whenever none is under way, every own step brings its end nearer, and then the count has grown by one |
| PacketLog.ReaderNeverBlocks | internal/session/packet_log.go:71-105 | every step of a reader brings its end nearer, whatever the writer does |
| PacketLog.Overtaken | internal/session/packet_log.go:84-88 | a slot that no longer shows a recorded position has been taken over by a later one |
| PacketLog.WordsAreFaithful | internal/session/packet_log.go:89-99 | the stored words determine the entry |
| CaptureSeqlock.ReadsOneObservation | internal/media/clocklineage/timeline.go:106-121 | with any number of writers a reader returns the three fields of one observation, none that was superseded before the call |
| CaptureSeqlock.OneWriterAtATime | internal/media/clocklineage/timeline.go:72-84 | at most one writer is between locking and releasing the version |
| CaptureSeqlock.QuietReadSucceeds | internal/media/clocklineage/timeline.go:106-121 | without a writer the first attempt returns the latest observation |
| CaptureSeqlock.RunInv | internal/media/clocklineage/timeline.go:72-121 | the seqlock invariants hold at every atomic step |
| CaptureSeqlock.QuietWriteSucceeds | internal/media/clocklineage/timeline.go:72-84 | a writer that nobody disturbs publishes exactly its observation in six steps |
| CaptureSeqlock.WriterNeverBlocks | internal/media/clocklineage/timeline.go:72-84 | a writer is held up only by the lock holder, whose own steps always bring its end nearer |
| CaptureSeqlock.AttemptFailsOnlyDisturbed | internal/media/clocklineage/timeline.go:106-121 | a reader gives up only after four attempts, each of which met nothing published, a writer at work, or a changed version |
| CaptureSeqlock.CallsBegin | internal/media/clocklineage/timeline.go:72-121 | a free writer starts with its observation, a free reader with four attempts |
| CaptureClock.NtpRoundTrip | internal/media/clocklineage/timeline.go:152-163 | a time returns from NTP short by at most a nanosecond and whole eras; unchanged if and only if in era 0 with a fraction divisible by 5^9 ns |
| CaptureClock.FractionRoundTrip | internal/media/clocklineage/timeline.go:152-163 | a fraction of a second survives exactly if 5^9 divides its nanoseconds, otherwise one is lost |
| CaptureClock.SignedRecovers | internal/media/clocklineage/timeline.go:147-147 | the signed 32-bit difference recovers the true distance across wraps |
| CaptureClock.CaptureFollowsSamples | internal/media/clocklineage/timeline.go:135-150 | a packet is stamped its sample distance from the report, less than a nanosecond off and never further away |
| CaptureClock.CaptureKnownIff | internal/media/clocklineage/timeline.go:135-146 | a packet is stamped exactly if there is a report observed no later than now and within the allowed age |
| AudioBus.LoopsNeverOverlap | internal/session/audio_bus.go:80-122 | while one forward loop is active every earlier one has finished and every later one waits |
| AudioBus.GenerationsNeverDecrease | internal/session/audio_bus.go:263-279 | delivered generations never decrease |
| AudioBus.NoTimerWhileForwarding | internal/session/audio_bus.go:105-120 | while a loop forwards no reconnect timer can expire any more |
| AudioBus.EarlierTimerClosesBusIff | internal/session/audio_bus.go:105-120 | the reconnect timer of an earlier loop closes an open bus under a later one if and only if it had expired before that call stopped the timers and its callback is still to run |
| AudioBus.QuietHandOverIsSafe | internal/session/audio_bus.go:105-108 | a timer that had not expired when a call stopped it never does anything afterwards |
| AudioBus.ExpiredTimerEndsLaterLoop | internal/session/audio_bus.go:254-260 | a run in which the expired timer of the first source closes the bus under the running loop of the second |
| AudioBus.DetachKeepsSuccessor | internal/session/audio_bus.go:242-249 | a loop that ends leaves its successor's source alone if and only if it is a different source |
| AudioBus.SharedSourceIsLost | internal/session/audio_bus.go:244-248 | the same source attached twice is lost when the first loop ends |
| AudioBus.ActiveIsNewest | internal/session/audio_bus.go:125-129 | with distinct sources the bus reports a source exactly while the newest call has not detached, and it is that call's |
| AudioBus.RunInv | internal/session/audio_bus.go:80-293 | chain, delivery, timer and source invariants hold in every reachable state |
| AudioDelivery.ReadIsDelivered | internal/session/audio_bus.go:263-279 | over any run the generations delivered, with the one packet a loop is delivering, are exactly those of the packets read while the lane was not shut, in that order |
| AudioDelivery.LoopEndsIff | internal/session/audio_bus.go:263-275 | a running loop ends if and only if its source fails or it reads a packet when the lane is shut |
| AudioDelivery.HandOverGoesOn | internal/session/audio_bus.go:100-121 | a call waits only for the loop before it, its own next step always brings its end nearer, and nobody else moves it |
| AudioDelivery.EndArmsTimerIff | internal/session/audio_bus.go:253-260 | a loop that ended arms its reconnect timer exactly if the lane is not shut by then |
| AudioDelivery.AbandonedLaneCloses | internal/session/audio_bus.go:256-258 | a reconnect timer that is not stopped in time closes the lane |
| AudioDelivery.InactivityUntilFirstSource | internal/session/audio_bus.go:109-111 | the inactivity timer can expire exactly while the lane is open, no call has got past waiting, and it has not expired |
| AudioDelivery.SilentLaneCloses | internal/session/audio_bus.go:70-73 | a lane to which nobody publishes closes when that timer expires |
| AudioDelivery.CloseShuts | internal/session/audio_bus.go:220-230 | closing shuts the lane in two steps and for good |
| WordSets.Add | access/names/phrases.go:14-14 | adding makes exactly that member present |
| WordSets.Count | access/names/phrases.go:16-22 | the popcount loop gives the number of members |
| WordSets.At | access/names/phrases.go:23-37 | the select loop returns the member of that rank, or -1 exactly if there are not that many |
| WordSets.SelectInWord | access/names/phrases.go:30-34 | clearing the lowest bit rank times and counting trailing zeros selects the bit of that rank |
| WordSets.SelectInvertsRank | access/names/phrases.go:23-37 | select inverts rank |
| WordSets.ClearingShiftsRank | access/names/phrases.go:31-31 | w & (w - 1) lowers every rank by one |
| Phrases.LengthMask | access/names/phrases.go:95-101 | the mask holds exactly the words of at most that length |
| Phrases.Heads | access/names/phrases.go:152-187 | the bitset loop computes the set of heads |
| Phrases.HeadsAreTheRule | access/names/phrases.go:150-187 | the bitset computation is the admissibility rule, word by word |
| Phrases.BuildPairs | access/names/phrases.go:129-135 | the pair blocks are cumulative, ordered and complete |
| Phrases.BuildTriples | access/names/phrases.go:136-146 | the triple blocks are cumulative, ordered and complete |
| Phrases.Search | access/names/phrases.go:227-231 | binary search finds the block that contains the number |
| Phrases.PhraseAt | access/names/phrases.go:215-240 | returns the phrase of that number, or nothing exactly beyond the capacity |
| Phrases.PhraseOf | access/names/phrases.go:227-239 | every number below the capacity names an admitted phrase |
| Phrases.NumbersAreDistinct | access/names/phrases.go:215-240 | different numbers name different phrases |
| Phrases.AdmittedHasNumber | access/names/phrases.go:188-202 | every admitted phrase has a number under which it is found |
| ReadableNames.BuildIndex | access/names/names.go:163-169 | the index maps exactly the vocabulary words to their positions |
| ReadableNames.Admits | access/names/phrases.go:188-202 | accepts exactly the word lists that make an admitted phrase |
| ReadableNames.AdmittedIffShort | access/names/phrases.go:150-187 | a phrase is admitted exactly if the roles of its words fit and its text has at most 24 characters |
| NameText.SplitJoin | access/names/names.go:112-112 | splitting a joined name gives its words back |
| NameText.JoinSplit | access/names/names.go:112-112 | joining a split text gives the text back |
| MixedRadix.NumberOfDigits | access/names/composed.go:127-135 | the digits of a rank make up that rank |
| MixedRadix.DigitsOfNumber | access/names/composed.go:127-135 | the digits of a composed number are the given ones |
| ComposedNames.BuildPairPool | access/names/composed.go:51-61 | the pool lists exactly the admitted pairs of the palette, once each, and its ranks invert it |
| ComposedNames.BuildTriplePool | access/names/composed.go:62-75 | the pool lists exactly the admitted triples of the palette, once each, and its ranks invert it |
| ComposedNames.BuildGroup | access/names/composed.go:47-76 | one group is well formed and lists exactly the admitted pairs of its palette and, in the first group only, its admitted triples |
| ComposedNames.BuildGroups | access/names/composed.go:45-78 | every group is well formed and lists exactly the admitted pairs of its palette and, in the first group only, its admitted triples |
| ComposedNames.NameSplits | access/names/composed.go:136-156 | a composed name splits into the words of its groups at their offsets |
| NameEnumeration.CapacityBig | access/names/composed.go:82-98 | the product loop gives the capacity; zero for invalid counts |
| NameEnumeration.AtBig | access/names/composed.go:114-137 | returns the name of the rank, or the specified error |
| NameEnumeration.SelectTexts | access/names/composed.go:125-135 | dividing down from the last group selects the specified texts |
| NameEnumeration.ParseComposed | access/names/composed.go:138-156 | accepts exactly the word lists whose groups are all listed |
| NameEnumeration.Build | access/names/composed.go:43-78 | any vocabulary and palettes of distinct words make a valid enumeration whose groups list exactly the admitted phrases of their palettes |
| NameEnumeration.NameIsAccepted | access/names/names.go:107-133 | every rank below the capacity names a text that the matching grammar accepts |
| NameEnumeration.NamesAreDistinct | access/names/names.go:63-68 | different ranks have different names |
| NameEnumeration.AcceptedIsNamed | access/names/composed.go:112-137 | every text the matching grammar accepts is the name of a rank below the capacity |
| NameEnumeration.LongAcceptedIff | access/names/composed.go:138-156 | a long text is accepted exactly if it has the number of words and each group of them is an admitted phrase of its palette |
| RedPayload.Encode | internal/media/red/red.go:62-100 | fails exactly for an empty primary or a block that does not fit; otherwise gives the specified layout |
| RedPayload.HeaderLayout | internal/media/red/red.go:80-86 | a header has the bits of section 3 of RFC 2198: flag and seven bits of type, fourteen of offset, ten of length |
| RedPayload.EncodedLayout | internal/media/red/red.go:78-98 | headers come first in the order of their blocks, then the primary header, then the data |
| RedPayload.Parse | internal/media/red/red.go:116-168 | the reading loops decode as specified |
| RedPayload.ParseOfEncode | internal/media/red/red.go:114-116 | parsing an encoding gives back what was encoded if and only if all payload types have seven bits |
| RedPayload.ParsesToMasked | internal/media/red/red.go:84-91 | in general payload types come back cut to seven bits |
| RedPayload.EncodeOfParse | internal/media/red/red.go:116-168 | encoding what was parsed gives the same bytes, and only well-formed payloads parse |
| RedListener.Listener.WriteRTP | internal/server/red_listener.go:50-79 | sends the frame with the previous one as redundancy and remembers it, or refuses and remembers nothing |
| RedListener.LostPacketIsRecovered | internal/server/red_listener.go:25-33 | in a steady stream of frames of 1 to 1023 bytes every packet parses back to its frame and to the previous frame and timestamp |
| RedListener.SentCompletelyIff | internal/server/red_listener.go:50-72 | a steady stream is sent completely if and only if all frames but the last fit a redundant block |
| RedListener.LongFrameJams | internal/server/red_listener.go:63-72 | after a frame of more than 1023 bytes every packet within 16383 samples is refused |
| OpusIngress.Parse | internal/media/ingress/opus.go:39-83 | accepts exactly the well-framed messages whose Opus packet lasts 20 ms, and reads their fields |
| OpusIngress.DurationAgrees | internal/media/ingress/opus.go:49-74 | the 16-bit sample product agrees with the durations of section 3.1 of RFC 6716 |
| OpusIngress.FrameCountCodes | internal/media/ingress/opus.go:63-74 | the frame count codes of sections 3.1 and 3.2 of RFC 6716, none if the count byte is missing or zero |
| OpusIngress.WrapIsHarmless | internal/media/ingress/opus.go:72-72 | the 16-bit product never wraps onto 960 by accident |
| OpusIngress.Timeline.Admit | internal/media/ingress/opus.go:96-125 | judges the frame as specified and changes state only on admission |
| OpusIngress.AdmittedFrames | internal/media/ingress/opus.go:96-125 | over any run admitted frames have increasing sequences, timestamps that follow from the first, media time at most 100 ms ahead and, unless late, at most 250 ms behind |
| OpusIngress.AdmittedIff | internal/media/ingress/opus.go:96-125 | over any run the next frame is admitted exactly if it is the first, or continues the stream with its media time at most 100 ms ahead, and is flagged exactly if more than 250 ms behind |
| OpusIngress.RateIsBounded | internal/media/ingress/opus.go:116-122 | no publisher gets in more frames than real time plus 100 ms allows |

## Left out

- HTTP, WebSocket, WHIP/WHEP and Pion wiring: I/O around the modelled protocols; the network between relay and authority is a call whose request or reply may be lost, delayed or repeated.
- JWT, HMAC, SHA-256 and TURN credentials: foreign cryptography, opaque here.
- The SQLite adapter: its meaning lives in SQL; the memory adapter is modelled instead.
- Metrics, histograms, percentiles and latency stores: they observe and decide nothing.
- Packet copying and RTP marshalling: a packet is copied whole or refused; the bounds check of a packet is a nondeterministic refusal.
- The cadence mode of the pacer and `sequenceForwarder.release`: production forwards without cadence.
- Reservations, rate limiters, codec hints and ICE-restart debounce: easy members.
- Concrete word lists and the construction of the editorial tables: `Phrases.Grammar` is any data of the right shape, with the length masks as built.
- Trimming and lower-casing in `Normalize`, and the two frozen grammars that are only parsed: the name theorems speak of texts that normalisation leaves unchanged.
- `busReady`, the capacity limit on invitations and the visibility options: checks in front of the modelled allocation.
- Capacity limits on Sessions and the issue of owner and publisher tokens: easy members.
- A panic inside a storage callback: the model covers errors, cancellation and a closed store.
- The namespace row inside the memory store: `WriterLease` models it on its own; `Redemption` treats a fenced transaction as one that did not commit.
- Closing a replaced source: in `AudioBus` it is a read failure that may come at any moment.
- The JSON size of a record: a given number in `MemoryStore`.
- Timer precision and scheduling: a wait may end at any moment the code allows.
- MemoryStore.Store.Update: the callback is represented by the writes it makes and whether it fails; what it reads and computes in between is arbitrary.
- PacketLog.SnapshotIsFaithful: one reader is modelled; readers change nothing, so several of them do not interact.
- EventBus.Hub.Publish: run without interference; the interleaving with receivers is the transition system beside it, to which `QuietPublishIsPublished` connects it.
- CaptureSeqlock.ReadsOneObservation: one reader is modelled, for the same reason.
- RedListener.Listener.WriteRTP: whether the write to the track succeeds afterwards is not modelled; the listener remembers the frame either way.
