# Turbine in Dafny

A model of the hard core of the Turbine PHP application server, with proofs. Protocols whose steps
interleave (worker dispatch, request coalescing, the job queue) are transition systems: a state, the atomic
steps of the code, and theorems about every run. Everything that works in place is also a class or a method
proved against a function on values, and for the three protocols each uninterrupted call of more than one step is
shown to be a run of the transition system. `dafny verify dfyconfig.toml` checks the whole project.

| file | what it models |
|---|---|
| Dispatch, DispatchCover, DispatchExact, DispatchExclusive, DispatchIsolation, DispatchRefresh, DispatchHealth, DispatchChannels, DispatchRuns | `ThreadDispatch`, `IdleGuard`, the reaper and the pipe dispatch as interleaved steps, with cancellation, write failure and decode failure at any await |
| ThreadDispatch | the same as objects: semaphore count, LIFO queue, flag and counter arrays |
| Coalescer, CoalescerObject | singleflight: acquire, the steps of publish and drop, and the follower's registration |
| TaskQueue, TaskQueueOrder, TaskQueueWakeup, TaskQueueSignals, TaskQueueCalls, TaskQueueObject | per-channel FIFO with long polling over `Notify` |
| Tar, TarTools | the archive packer of the build script and the extractor of the binary |
| Frames, Output, OutputRuns, OutputHeaders, HeaderLines | the framed response protocol and the streaming output capture |
| Envelope, Forms, Numerals | the response envelope parser; form decoding and PHP string escaping; numbers in text |
| ResponseCache, SharedTable, TableEviction, TableHistory, Metrics, RateGuard, RateHistory | response cache, TTL table, latency histogram and collector, per-address guard |

Main results, and what turned out not to hold as one might expect:

- *Permits cover the queue* in every interleaving: the queue is never longer than the permits, the calls between
  acquire and pop, and the permits owed between push and `add_permits`, so no idle worker is stranded
  (`NoStrandedWorker`). *Equality* of permits and queue, with every slot in one place, holds along a run if and only
  if each refresh puts back only slots that are out of circulation (`ConservationIff`).
- *One holder per slot* needs less and does not depend on that equality: it holds along a run if and only if each
  refresh pushes no slot that is held, and grows by none that is held or queued (`OneHolderIff`); `TwoHolders` is a run
  where two requests hold one worker.
- In *channel mode* the dispatch starts without fds, so its first refresh takes the scale-up branch for every slot.
  It keeps exactness if and only if no slot below the new length is in use then (`FirstChannelRefreshIff`);
  `RefreshDoublesQueue` is the run, for any number of workers, that queues every idle slot twice, and
  `ChannelTwoHolders` goes on to two requests holding one worker.
- *Response isolation and one holder per slot* hold along a pipe-mode run if and only if every slot that a refresh
  queues is held by nobody and on an untouched pipe when it is queued (`IsolationIff`). Slots that the refresh finds
  queued already do no harm: `QueuedRevival` is the ordinary recycling of an idle over-quota slot, after which permits
  and queue differ and every response is still isolated. It holds in particular when every slot a refresh puts back is
  queued already, was out of use on a new or untouched pipe when the refresh installed its pipes, or was taken out of
  circulation by `get_idle` since (`PreparedIsIsolated`). `CrossTalk` is a run where a request reads another's answer.
- An uninterrupted `get_idle` hands out a worker if and only if the last pickable queued slot has a permit for itself
  and every slot behind it, fewer than 2·max(n,1) of them (`GetIdleIff`), and a slot is pickable exactly as the history
  of answered, failed and reset requests says (`PickableIff`).
- A clean refresh revives an unused slot exactly once, whatever interleaves with it (`NextRefreshRevives`).
- A coalescing follower that has registered returns in some continuation if and only if its leader's notify step
  is still to come (`ReturnsIffRegisteredInTime`); `LateFollowerExists` reaches a follower that never returns.
- With one long-polling consumer no wake-up is lost (`NoLostWakeup`). With any number, none is lost along a run if
  and only if it has neither of two steps: a pop that parks behind a job with no permit stored and no help on its
  way, and the last help taking one of several jobs while somebody is parked (`LostWakeupIff`). The queue is bounded
  by the signals on their way exactly until an already stored permit absorbs a signal while the bound is tight
  (`BoundStepIff`), and until then a parked consumer behind a job has help (`NoLossNoLostWakeup`).
  `TwoPollersLoseWakeup` strands a consumer that stays stranded in every continuation that leaves it alone.
- A get of the shared table returns the last accepted write that nothing deleted since, until its deadline
  (`GetReadsLastWrite`). Evictions of the shared table go unnoticed if and only if no write gets in through room they made
  (`EvictionInvisibleIff`); `EvictionSeen` is the smallest history that notices.
- Unpacking a packed archive, decoding an encoded frame and parsing an emitted envelope each give back the
  original under a condition that is necessary and sufficient (`RoundTripIff`, `FrameCodecIff`, `EnvelopeIff`).
- The frame reader accepts the encodings of frames and nothing else (`ReadFrameIff`), the response reader orderly
  sequences of frames and nothing else (`DecodedShape`), and every request, streamed or buffered, is delivered with the
  bytes PHP wrote and the status and headers in force when the response was settled (`ResponseDelivered`).
- The guard's counters are counts over its history (`WindowCounts`, `AttemptCounts`), and what a check or an attempt
  decides follows from those counts alone (`CheckDecides`, `AttemptDecides`).
- The cache bound holds for a put exactly when there is room, the key is present, or some entry has positive age
  (`PutBoundIff`); `SizeBoundNeedsClock` exceeds it with two puts at one instant.
- Endpoint errors and the global error count agree if and only if no status is 600 or above (`ErrorsAgreeIff`).

Where code and comments disagree the model follows the code: the comment on `emit_headers_frame`
(crates/turbine-engine/src/output.rs:87-88) says it drains the response code; it only drains the headers.

Conventions: the clock, read anew for each header of an archive, the process-table facts and PHP's own status code are
parameters. Byte strings are sequences of bytes; lossy UTF-8 conversion is the identity and UTF-8 validity a
parameter. Rates and percentiles are exact where the code uses `f64`. Integers are unbounded except where the
width matters: the `u16` and `u32` length casts of frames, the 64-bit two's-complement counters of the table,
eleven-digit octal fields, and saturating 64-bit times of the guard.

## Model

| member | source | states |
|---|---|---|
| DispatchCover.AlwaysCovered | crates/turbine-core/src/main.rs:510-563 | every run keeps: queue length at most permits plus calls between acquire and pop plus permits owed between push and add_permits; skips below the allowance; every consumed permit accounted for |
| DispatchCover.NoStrandedWorker | crates/turbine-core/src/main.rs:510-563 | in every reachable state a queued slot with no call between acquire and pop and no permit owed after a push has a permit that claims it |
| DispatchCover.PermitFates | crates/turbine-core/src/main.rs:510-555 | consumed permits split exactly into workers handed out, permits restored and slots retired; no call reaches 2·max(n,1) skips while still waiting |
| DispatchCover.TallyMeaning | crates/turbine-core/src/main.rs:510-555 | a permit is consumed exactly by an acquire, and its slot handed out or retired by the check, or the permit restored |
| DispatchCover.CapConstant | crates/turbine-core/src/main.rs:226-256 | no run changes the number of tracked slots, their quotas or the mode |
| DispatchExact.PushRevivedKeepsExact | crates/turbine-core/src/main.rs:640-657 | from an exact state each revived slot enters the queue exactly once and as many permits are owed |
| DispatchExact.ScanExactIff | crates/turbine-core/src/main.rs:621-639 | scanning a slot keeps exactness if and only if a flagged slot it revives was out of use |
| DispatchExact.GrowExactIff | crates/turbine-core/src/main.rs:659-681 | the scale-up branch keeps exactness if and only if the slots it queues were out of use |
| DispatchExact.StepExactIff | crates/turbine-core/src/main.rs:510-795 | from an exact state any step of anyone leads to an exact state if and only if what it puts back was out of circulation |
| DispatchExact.RunExactIff | crates/turbine-core/src/main.rs:510-795 | the same for whole runs from any exact state |
| DispatchExact.ConservationIff | crates/turbine-core/src/main.rs:510-795 | from start-up in either mode (channel mode without fds), conservation and exclusivity hold in every state of a run if and only if every refresh was clean |
| DispatchExact.OnePlace | crates/turbine-core/src/main.rs:302-317 | in an exact state a slot is in exactly one place: queued once, in the reaper's hands, held by one request, or unused and flagged |
| DispatchExact.UnusedSlotRevived | crates/turbine-core/src/main.rs:621-639 | a scan that reaches an unused slot takes it for revival and leaves it pickable |
| DispatchExclusive.PushExclusiveIff | crates/turbine-core/src/main.rs:640-657 | pushing the revived slots keeps each slot queued or held at most once if and only if none that is missing from the queue is held |
| DispatchExclusive.GrowExclusiveIff | crates/turbine-core/src/main.rs:659-681 | the scale-up branch keeps it if and only if no slot it queues is queued or held |
| DispatchExclusive.StepExclusiveIff | crates/turbine-core/src/main.rs:510-795 | from a state where every slot is queued or held at most once, any step of anyone keeps that if and only if it pushes no held slot and grows by none that is held or queued, whatever the permits are |
| DispatchExclusive.RunExclusiveIff | crates/turbine-core/src/main.rs:510-795 | the same for whole runs |
| DispatchExclusive.OneHolderIff | crates/turbine-core/src/main.rs:510-795 | from start-up in either mode, no slot is held twice, queued twice or queued while held in any state of a run if and only if every refresh kept to that |
| DispatchRefresh.UnusedStays | crates/turbine-core/src/main.rs:601-682 | only its own scan or the scale-up branch takes an unused slot into use, whoever else runs |
| DispatchRefresh.NextRefreshRevives | crates/turbine-core/src/main.rs:601-657 | from an exact resting state, along any clean interleaving from installing the pipes to queueing the revived slots, an unused slot is taken once, queued exactly once, pickable, and one of the slots a permit is owed for |
| DispatchRefresh.AwayStays | crates/turbine-core/src/main.rs:601-682 | a slot out of use on an untouched pipe stays so in every interleaving until the refresh puts it back |
| DispatchRefresh.ReadyIsAway | crates/turbine-core/src/main.rs:601-611 | a slot out of use that gets a new pipe or keeps an untouched one is such a slot once the pipes are installed |
| DispatchRefresh.RetiredIsAway | crates/turbine-core/src/main.rs:510-555 | so is a slot that get_idle takes out of circulation |
| DispatchRefresh.PreparedIsClean | crates/turbine-core/src/main.rs:601-682 | a run whose refreshes put back only slots that are queued already, were ready at installation or were taken out of circulation since is clean |
| DispatchRefresh.PreparedIsIsolated | crates/turbine-core/src/main.rs:712-795 | so from start-up every state of such a run is isolated |
| DispatchHealth.HealthIsHistory | crates/turbine-core/src/main.rs:264-317 | along every run a slot's count is the requests recorded on it since the reaper last reset it, and its flag says whether anything gave it up since |
| DispatchHealth.PickableIff | crates/turbine-core/src/main.rs:302-317 | from start-up a slot can be picked exactly if it is tracked, was not given up since its last reset and has served fewer requests since then than its quota, any number for quota 0 |
| DispatchHealth.AwaitsCanFail | crates/turbine-core/src/main.rs:3520-3571 | every await can fail: a waiting call can stop, a write fail with or without sending, a read be cancelled or broken, a channel request be dropped; the failures of armed requests give the slot up |
| DispatchChannels.ExactUntilGrow | crates/turbine-core/src/main.rs:358-474 | from start-up in channel mode every run is exact until its first scale-up |
| DispatchChannels.FirstChannelRefreshIff | crates/turbine-core/src/main.rs:659-681 | that scale-up keeps exactness if and only if no slot below the new length is in use |
| DispatchChannels.FirstGrowDoubles | crates/turbine-core/src/main.rs:659-668 | a slot that is queued then is queued twice afterwards |
| DispatchChannels.RefreshDoublesQueue | crates/turbine-core/src/main.rs:659-668 | for any number of workers, a run whose first refresh queues every slot twice and doubles the permits |
| DispatchChannels.ChannelTwoHolders | crates/turbine-core/src/main.rs:659-668 | a run in channel mode that ends with two requests holding one worker |
| DispatchIsolation.ReadsOwnAnswer | crates/turbine-core/src/main.rs:4059-4120 | in an isolated state the chunk a request reads is the next chunk of its own answer, and after the last one the pipe is empty |
| DispatchIsolation.StepIsolatedIff | crates/turbine-core/src/main.rs:3520-3571 | from an isolated state a step keeps isolation and one holder per slot if and only if each slot it queues is held by nobody and on an untouched pipe; slots that are queued already are exempt from a push |
| DispatchIsolation.RunIsolatedIff | crates/turbine-core/src/main.rs:712-795 | the same for whole runs |
| DispatchIsolation.IsolationIff | crates/turbine-core/src/main.rs:712-795 | from start-up in pipe mode, isolation and one holder per slot hold throughout a run if and only if every refresh queued only such slots |
| DispatchIsolation.ResponsesBelong | crates/turbine-core/src/main.rs:712-795 | along such runs idle slots have empty pipes and a finished request read exactly its own whole answer |
| DispatchRuns.TwoHolders | crates/turbine-core/src/main.rs:601-682 | a run in which an over-quota slot is revived while held and two requests then hold it at once |
| DispatchRuns.QueuedRevival | crates/turbine-core/src/main.rs:2117-2179 | a run that recycles an idle over-quota slot: it stays queued once, a permit too many is added, and the state is isolated though not exact |
| DispatchRuns.CrossTalk | crates/turbine-core/src/main.rs:2102-2181 | a run in which a slot poisoned between the pipe snapshot and the scan comes back on its old pipe and a request reads another's answer |
| ThreadDispatchObject.ThreadDispatch.constructor | crates/turbine-core/src/main.rs:226-256 | one permit and one queue entry per worker, no flag, no count |
| ThreadDispatchObject.ThreadDispatch.Channels | crates/turbine-core/src/main.rs:462-473 | the same without fds for channel mode |
| ThreadDispatchObject.ThreadDispatch.MarkUnhealthy | crates/turbine-core/src/main.rs:264-268 | flags the slot and nothing else; out of range changes nothing |
| ThreadDispatchObject.ThreadDispatch.RecordServed | crates/turbine-core/src/main.rs:282-286 | counts one for the slot and nothing else; out of range changes nothing |
| ThreadDispatchObject.ThreadDispatch.IsPickable | crates/turbine-core/src/main.rs:302-317 | true exactly for tracked, healthy slots below their quota (zero means none) |
| ThreadDispatchObject.ThreadDispatch.OverQuotaIndices | crates/turbine-core/src/main.rs:327-347 | exactly the healthy slots at or past their quota, each once, increasing |
| ThreadDispatchObject.ThreadDispatch.GetIdle | crates/turbine-core/src/main.rs:510-555 | result and new state are those of GetIdleFrom |
| ThreadDispatchObject.GetIdleMeaning | crates/turbine-core/src/main.rs:510-555 | the result is the last queued pickable slot; the slots behind it leave with their permits, fewer than 2·max(n,1) of them; None exactly at an empty queue, no permit, or 2·max(n,1) skips |
| ThreadDispatchObject.GetIdleIff | crates/turbine-core/src/main.rs:510-555 | a call hands out a worker if and only if the last pickable queued slot is within reach of the permits and has fewer than 2·max(n,1) slots behind it, and then that slot; all from it on leave with their permits |
| ThreadDispatchObject.PickableIsFound | crates/turbine-core/src/main.rs:510-555 | with a permit for each slot of a duplicate-free queue of tracked slots, a call succeeds if and only if some queued slot is pickable |
| ThreadDispatchObject.GetIdleIsRun | crates/turbine-core/src/main.rs:510-555 | an uninterrupted call is a run of the transition system with that effect and result |
| ThreadDispatchObject.ThreadDispatch.ReturnIdle | crates/turbine-core/src/main.rs:560-563 | appends the slot and adds one permit |
| ThreadDispatchObject.ThreadDispatch.ResetSlots | crates/turbine-core/src/main.rs:621-639 | clears flags and counts below the new length and returns the flagged slots known before, in order |
| ThreadDispatchObject.ThreadDispatch.ResetOne | crates/turbine-core/src/main.rs:630-633 | clears one slot's flag and count and says whether it was flagged or over quota |
| ThreadDispatchObject.ResetBelowMeaning | crates/turbine-core/src/main.rs:629-631 | resetting clears flags and counts below the bound and touches nothing else |
| ThreadDispatchObject.FlaggedBelowMeaning | crates/turbine-core/src/main.rs:621-639 | those are exactly the flagged slots below the bound, each once |
| ThreadDispatchObject.ThreadDispatch.QueueRevived | crates/turbine-core/src/main.rs:640-657 | queues what is missing, adds a permit per revived slot |
| DispatchCover.PushMissingMeaning | crates/turbine-core/src/main.rs:640-657 | the old queue is a prefix of the new one, whose members are the old and the revived ones |
| ThreadDispatchObject.ThreadDispatch.RefreshFds | crates/turbine-core/src/main.rs:601-682 | the whole refresh, and that it underflows exactly when the old length exceeds the tracked slots while growing |
| ThreadDispatchObject.RefreshMeaning | crates/turbine-core/src/main.rs:601-682 | afterwards flags and counts below the new length are cleared and the others kept; the queue is the old one, the missing flagged slots known before and after, in order, and the new slots, in order; one permit is added per flagged slot, missing or not, and per new slot |
| ThreadDispatchObject.RefreshIsRun | crates/turbine-core/src/main.rs:601-682 | an uninterrupted refresh is a run with that effect |
| ThreadDispatchObject.IdleGuard.constructor | crates/turbine-core/src/main.rs:727-735 | a new guard owns its slot, unarmed and not completed |
| ThreadDispatchObject.IdleGuard.ArmPoison | crates/turbine-core/src/main.rs:740-743 | records the command fd and the process and changes nothing else |
| ThreadDispatchObject.IdleGuard.MarkCompleted | crates/turbine-core/src/main.rs:746-748 | marks completion and changes nothing else |
| ThreadDispatchObject.IdleGuard.Drop | crates/turbine-core/src/main.rs:758-795 | an armed, uncompleted guard flags its slot, does not return it, and sends the shutdown byte and, for a known process, the kill; any other returns it; a defused one does nothing |
| ThreadDispatchObject.DropIsRun | crates/turbine-core/src/main.rs:758-795 | a dropping guard is a run with that effect on the shared fields |
| ThreadDispatchObject.MarkAllMeaning | crates/turbine-core/src/main.rs:2122-2131 | flagging the reported slots sets exactly their flags |
| ThreadDispatchObject.MarkingIsRun | crates/turbine-core/src/main.rs:2122-2131 | flagging what over_quota_indices reports is a run with that effect |
| Coalescer.AlwaysInv | crates/turbine-cache/src/coalescer.rs:72-176 | every run keeps: in-flight map and unfinished leaders determine each other, slots have one owner, slots and callers agree |
| Coalescer.SingleLeader | crates/turbine-cache/src/coalescer.rs:72-90 | in every reachable state a key is in flight exactly while one guard for it has not run its remove step, and the map holds that guard's slot |
| Coalescer.FollowerAgreement | crates/turbine-cache/src/coalescer.rs:140-176 | a follower that returned has its leader's outcome, the value if published and None if aborted, as every other follower of the slot |
| Coalescer.NotifyWakesRegistered | crates/turbine-cache/src/coalescer.rs:140-162 | the notify step wakes every registered follower of its slot and no one else |
| Coalescer.CancelledFollower | crates/turbine-cache/src/coalescer.rs:172-176 | a follower can be cancelled before it returns; it is gone for good and nobody else, no slot and no key is affected |
| Coalescer.LateFollowerStuck | crates/turbine-cache/src/coalescer.rs:172-176 | a follower that registers after the notify step is parked in every continuation, unless cancelled |
| Coalescer.EarlyFollowerReturns | crates/turbine-cache/src/coalescer.rs:172-176 | one that registers before it has a continuation in which it returns |
| Coalescer.ReturnsIffRegisteredInTime | crates/turbine-cache/src/coalescer.rs:172-176 | a parked follower can return if and only if the notify step is still to come |
| Coalescer.LateFollowerExists | crates/turbine-cache/src/coalescer.rs:72-176 | a run from the start that ends in such a follower although the value is published |
| CoalescerObject.Flights.constructor | crates/turbine-cache/src/coalescer.rs:54-58 | no key is in flight |
| CoalescerObject.Flights.AcquireKey | crates/turbine-cache/src/coalescer.rs:72-90 | follower of the present slot if the key is in flight, otherwise leader of a new slot put in the map |
| CoalescerObject.Flights.Count | crates/turbine-cache/src/coalescer.rs:114-116 | the number of keys in flight |
| CoalescerObject.LeaderGuard.constructor | crates/turbine-cache/src/coalescer.rs:72-90 | an unpublished guard for its key and slot |
| CoalescerObject.LeaderGuard.Publish | crates/turbine-cache/src/coalescer.rs:140-151 | stores the value, removes its key and notifies, leaving all else alone |
| CoalescerObject.LeaderGuard.Drop | crates/turbine-cache/src/coalescer.rs:154-162 | an unpublished guard removes its key and notifies with no value; a published one does nothing |
| CoalescerObject.PublishIsRun | crates/turbine-cache/src/coalescer.rs:140-151 | an uninterrupted publish is the run store, remove, notify with that effect |
| CoalescerObject.DropIsRun | crates/turbine-cache/src/coalescer.rs:154-162 | an uninterrupted drop is the run abort, notify with that effect |
| TaskQueueOrder.AlwaysInv | crates/turbine-core/src/task_queue.rs:91-193 | every run keeps FIFO and capacity per channel, balanced counters, unique ids and single delivery |
| TaskQueueOrder.FifoUniqueDelivery | crates/turbine-core/src/task_queue.rs:111-171 | in every interleaving what a channel removed is a prefix of what it accepted, the rest is queued within capacity, all ids differ, and no two pops return one job |
| TaskQueueOrder.CountersBalance | crates/turbine-core/src/task_queue.rs:111-193 | at quiescence ids drawn are pushed plus rejected, and pushed is popped plus cleared plus queued |
| TaskQueueOrder.ChannelCap | crates/turbine-core/src/task_queue.rs:91-108 | with at most k calls in progress the channel map never exceeds the cap by more than k−1, from any state within that bound |
| TaskQueueOrder.ChannelCapFromStart | crates/turbine-core/src/task_queue.rs:91-108 | the same from an empty queue |
| TaskQueueCalls.ClearedNeverDelivered | crates/turbine-core/src/task_queue.rs:183-193 | whatever is queued when a channel is cleared is delivered to no call, however the run goes on |
| TaskQueueCalls.NoWaitNeverParks | crates/turbine-core/src/task_queue.rs:137-147 | a pop without a wait is never in the slow path in any continuation |
| TaskQueueCalls.EmptyHanded | crates/turbine-core/src/task_queue.rs:137-171 | finding nothing, such a pop answers at once; a waiting one goes to its deadline check, from the first look or a wake-up, and to its registration once armed |
| TaskQueueWakeup.NoLostWakeup | crates/turbine-core/src/task_queue.rs:111-171 | with one long-poller on a channel no interleaving leaves it parked on a queued job with no notify owed |
| TaskQueueWakeup.TwoPollersLoseWakeup | crates/turbine-core/src/task_queue.rs:137-171 | a run with two long-pollers that leaves one parked behind a job with no permit stored and no call that will take the job or wake anyone |
| TaskQueueWakeup.StrandedForever | crates/turbine-core/src/task_queue.rs:137-171 | such a consumer stays so, and its job queued, in every continuation without a new call on the channel, a clear, or its own timeout or cancellation |
| TaskQueueWakeup.ParkedUntilPush | crates/turbine-core/src/task_queue.rs:137-171 | with nothing left that can signal, whatever other pops and clears do, only a new push, its timeout or its cancellation ends the wait |
| TaskQueueSignals.BoundStepIff | crates/turbine-core/src/task_queue.rs:111-171 | with any number of consumers, any step keeps the queue within the notifies owed, pops woken and permit stored if and only if it is not a signal absorbed by a stored permit while the bound is tight |
| TaskQueueSignals.RunBoundIff | crates/turbine-core/src/task_queue.rs:111-171 | the same for whole runs |
| TaskQueueSignals.AlwaysPermitAlone | crates/turbine-core/src/task_queue.rs:111-171 | no run stores a permit while somebody is parked |
| TaskQueueSignals.NoLossNoLostWakeup | crates/turbine-core/src/task_queue.rs:111-171 | along a run without such an absorbed signal a consumer parked behind a job always has a woken pop or an owed notify |
| TaskQueueSignals.LossIff | crates/turbine-core/src/task_queue.rs:137-171 | exactly two steps leave somebody parked behind a job with no help: a pop parking with neither permit nor help, and the last help taking one of several jobs |
| TaskQueueSignals.LostWakeupIff | crates/turbine-core/src/task_queue.rs:111-171 | from an empty queue no wake-up is lost along a run if and only if it has neither of those steps |
| TaskQueueObject.Queue.constructor | crates/turbine-core/src/task_queue.rs:79-89 | no channel, ids from one, all counters zero |
| TaskQueueObject.Queue.ChannelOrCreate | crates/turbine-core/src/task_queue.rs:91-108 | finds or creates the channel; fails exactly for a new name at the cap |
| TaskQueueObject.Queue.PushJob | crates/turbine-core/src/task_queue.rs:111-129 | new state and reply are those of PushNow, rejections included |
| TaskQueueObject.Queue.PopJob | crates/turbine-core/src/task_queue.rs:137-147 | new state and reply are those of PopNow |
| TaskQueueObject.PushedComeBack | crates/turbine-core/src/task_queue.rs:111-147 | jobs pushed on an empty channel with room are popped in order with their payloads and consecutive ids |
| TaskQueueObject.Queue.Size | crates/turbine-core/src/task_queue.rs:175-180 | the channel's queue length, zero without one |
| TaskQueueObject.Queue.ClearChannel | crates/turbine-core/src/task_queue.rs:183-193 | empties that channel only and returns how many it dropped |
| TaskQueueObject.ClearMeaning | crates/turbine-core/src/task_queue.rs:183-193 | the named channel is empty afterwards, every other channel, the set of channels, ids and counters are as before, and the result is the number of jobs dropped, 0 without the channel |
| TaskQueueObject.PopAfterClear | crates/turbine-core/src/task_queue.rs:137-193 | a pop right after a clear finds nothing on that channel and on any other what it would have found before |
| TaskQueueObject.OwnChannelOnly | crates/turbine-core/src/task_queue.rs:111-147 | a push or pop changes no other channel |
| TaskQueueObject.ClearIsRun | crates/turbine-core/src/task_queue.rs:183-193 | a clear is a run of one step with that effect and result, whatever calls are in progress |
| TaskQueueObject.FindIsRun | crates/turbine-core/src/task_queue.rs:91-108 | an uninterrupted channel lookup is a run with the effect of the object's |
| TaskQueueObject.PushIsRun | crates/turbine-core/src/task_queue.rs:111-129 | an uninterrupted push is a run with the effect and reply of PushNow, whoever is parked |
| TaskQueueObject.NotifyIsRun | crates/turbine-core/src/task_queue.rs:111-129 | its signal changes no queue and wakes a parked pop when there is one |
| TaskQueueObject.PopIsRun | crates/turbine-core/src/task_queue.rs:137-171 | an uninterrupted pop, waiting or not, is a run with the effect and reply of PopNow |
| Tar.SizeFieldRoundTrip | crates/turbine-core/src/embed.rs:124-129 | the reader's lenient parse inverts the writer's eleven-digit octal field |
| Tar.SizeFieldIff | crates/turbine-core/src/embed.rs:124-129 | of any field, what is left between blanks and then between NULs is read as an octal number with optional plus and leading zeros, and as 0 if it is none |
| Numerals.ParseIff | crates/turbine-core/src/embed.rs:124-129 | a text parses to a number in octal or decimal if and only if it is that number's shortest text after at most one plus and any zeros |
| Tar.ChecksumFits | crates/turbine-core/build.rs:184-188 | the byte sum of any header fits six octal digits |
| Tar.ChecksumVerifies | crates/turbine-core/build.rs:184-188 | the stored digits are the sum of the header with the checksum field read as spaces |
| Tar.SumJoin | crates/turbine-core/build.rs:184-188 | the byte sum is additive and of one byte that byte |
| Tar.HeaderLayout | crates/turbine-core/build.rs:145-191 | the whole ustar header byte for byte: padded name, mode, owner, group, octal size and time, checksum of the header with a blank checksum field, type, empty link name, magic, version, zeros |
| Tar.HeaderFields | crates/turbine-core/build.rs:145-191 | name, size and type fields of the finished header are what the reader looks at |
| Tar.ReadBackIff | crates/turbine-core/src/embed.rs:120-186 | one packed entry comes back as itself exactly when its name is carried |
| Tar.TypeFlags | crates/turbine-core/src/embed.rs:120-186 | flags 5 and / make directories, 0 and NUL files whose bytes are all there, any other nothing; an empty name, a dot or a target outside make nothing |
| Tar.ExtractOne | crates/turbine-core/src/embed.rs:112-190 | the reader takes one packed entry and continues exactly after its padding |
| Tar.ExtractPacked | crates/turbine-core/src/embed.rs:96-193 | extracting a packed archive is reading back its entries one by one |
| Tar.RoundTripIff | crates/turbine-core/build.rs:83-191 | extracting the packed archive gives exactly the entries, in order and with contents, if and only if every name is non-empty, NUL-free, at most 100 bytes, not "." and inside the destination |
| TarTools.PutField | crates/turbine-core/build.rs:145-191 | a field is copied in place and nothing around it changes |
| TarTools.Checksum | crates/turbine-core/build.rs:184-188 | the loop computes the byte sum |
| TarTools.WriteTarHeader | crates/turbine-core/build.rs:145-191 | appends the header, and panics exactly when size or time needs more than eleven octal digits |
| TarTools.PackOne | crates/turbine-core/build.rs:102-142 | appends header, contents and padding of one entry |
| TarTools.PackArchive | crates/turbine-core/build.rs:83-142 | the buffer after the walk and the end blocks is the packed archive, each header with its own reading of the clock; it fails exactly when a size or time does not fit its field |
| TarTools.PruningIsFiltering | crates/turbine-core/build.rs:102-142 | not entering skipped directories packs the same entries as dropping every entry whose own path is skipped |
| TarTools.SkippedIff | crates/turbine-core/build.rs:109-127 | a path is skipped if and only if one of its names begins with a dot or its first is node_modules |
| TarTools.PackedTree | crates/turbine-core/build.rs:83-142 | packing the walk of a tree and extracting it gives the tree's unskipped entries, in order and with contents, if and only if each of their names is carried |
| TarTools.NameOf | crates/turbine-core/src/embed.rs:120-122 | the name field up to its first NUL |
| TarTools.ReadOne | crates/turbine-core/src/embed.rs:120-186 | at most one entry, created only for a carried name and only from bytes that are there |
| TarTools.NextEntry | crates/turbine-core/src/embed.rs:112-190 | one step of the walk makes progress and leaves exactly what is ahead |
| TarTools.ExtractTar | crates/turbine-core/src/embed.rs:96-193 | on arbitrary bytes the walk ends, stays in bounds, creates what Extract says and counts the files written |
| TarTools.RoundTripCount | crates/turbine-core/src/embed.rs:96-193 | on a packed archive with carried, writable names the count is the number of files |
| LittleEndian.LeRoundTrip | crates/turbine-worker/src/stream.rs:79-120 | a number in range survives its little-endian bytes |
| LittleEndian.FromLeRoundTrip | crates/turbine-worker/src/stream.rs:142-203 | bytes survive their number |
| LittleEndian.FromLeAppend | crates/turbine-worker/src/stream.rs:79-203 | a byte after k others has weight 256^k |
| Frames.FrameRoundTrip | crates/turbine-worker/src/stream.rs:79-203 | a frame that fits is read back, leaving the rest of the stream |
| Frames.ReadFits | crates/turbine-worker/src/stream.rs:142-203 | whatever the reader accepts fits |
| Frames.FrameCodecIff | crates/turbine-worker/src/stream.rs:79-203 | a frame is read back as itself if and only if its lengths survive their casts |
| Frames.ReadFrameIff | crates/turbine-worker/src/stream.rs:142-203 | the reader accepts exactly the encodings of fitting frames, and any non-zero byte after an end tag; it reports the end of the stream exactly with no bytes left |
| Frames.StreamRoundTrip | crates/turbine-worker/src/stream.rs:79-203 | a sequence of frames is determined by its bytes |
| Frames.ResponseRoundTrip | crates/turbine-worker/src/persistent.rs:324-402 | headers, any chunks and an end frame reassemble to status, headers and the concatenated body, consuming nothing further; a failed response with status 200 to 399 becomes 500; over 1024 headers are refused |
| Frames.ErrorRoundTrip | crates/turbine-worker/src/persistent.rs:324-402 | an error frame anywhere makes a 500 response with its message as the body |
| Frames.DecodedShape | crates/turbine-worker/src/persistent.rs:324-402 | nothing else is accepted: every decoded response comes from an error frame, or a headers frame of at most 1024 headers, chunks and an end or error frame, and consumes exactly those |
| Output.OutputCapture.WriteAllFd | crates/turbine-engine/src/output.rs:73-85 | for every schedule of short writes and interruptions a prefix arrives, and all of it without a hard failure |
| Output.OutputCapture.EmitHeadersFrame | crates/turbine-engine/src/output.rs:89-122 | the wire gets a prefix of the encoded headers frame with the effective status, all of it without a hard failure, and the header buffer is drained |
| Output.OutputCapture.EmitBodyChunkFrame | crates/turbine-engine/src/output.rs:125-139 | the wire gets a prefix of the five-byte header and then one of the payload; without a hard failure, the encoded chunk |
| Output.OutputCapture.EngageStreaming | crates/turbine-engine/src/output.rs:169-184 | new state and frames are those of Engage, nothing if engaged already or without a descriptor; after hard failures the wire has, in order, a prefix of each write |
| Output.OutputCapture.UbWrite | crates/turbine-engine/src/output.rs:192-218 | new state and frames are those of OnWrite, with the same account of the wire |
| Output.OutputCapture.SapiFlush | crates/turbine-engine/src/output.rs:227-233 | a flush engages streaming, with the same account of the wire |
| Output.OutputCapture.HeaderHandler | crates/turbine-engine/src/output.rs:249-317 | new header list and status are those of OnHeader |
| HeaderLines.HandleLine | crates/turbine-engine/src/output.rs:249-317 | a raw header line has the effect of the header call LineOp reads from it, invalid UTF-8 and null headers included |
| HeaderLines.NameValueLine | crates/turbine-engine/src/output.rs:292-310 | a line that is no status line is split at its first colon, and exactly the blanks around name and value are dropped |
| HeaderLines.StatusLineMeaning | crates/turbine-engine/src/output.rs:284-291 | a status line sets the 16-bit number its second word denotes, whatever blanks and reason phrase, and is ignored without such a number |
| HeaderLines.OtherLines | crates/turbine-engine/src/output.rs:249-317 | a delete takes the line as the name, deleting all takes none; null headers, invalid UTF-8, lines without a colon and other operations are ignored |
| Output.OutputCapture.ArmStreaming | crates/turbine-engine/src/output.rs:357-362 | sets the descriptor, disengages, keeps the buffers |
| Output.OutputCapture.FinishStreaming | crates/turbine-engine/src/output.rs:376-380 | returns and resets engagement and descriptor, keeps the buffers |
| Output.OutputCapture.ClearOutputBuffer | crates/turbine-engine/src/output.rs:388-392 | empties both buffers and resets the status to 200 |
| Output.OutputCapture.TakeOutput | crates/turbine-engine/src/output.rs:398-403 | returns the buffer and leaves it empty |
| OutputRuns.EventStep | crates/turbine-engine/src/output.rs:148-233 | any event keeps the frame order and extends chunks-then-buffer by exactly what it wrote |
| OutputRuns.Lossless | crates/turbine-engine/src/output.rs:148-233 | after any events, chunks emitted followed by the buffer are what was written; one headers frame precedes all chunks if streaming engaged, else nothing was emitted |
| OutputRuns.FeedEvents | crates/turbine-engine/src/output.rs:192-317 | the callbacks on the object, under any schedule of short, interrupted and failing writes, put a prefix of each write of the run's frames on the wire, in order, and exactly the frames if no write fails hard |
| OutputRuns.ServeEvents | crates/turbine-engine/src/output.rs:192-392 | a whole request on a fresh wire, if no write fails hard, is read back as exactly the frames emitted, when they fit; the state never depends on the writes |
| OutputRuns.PipeShape | crates/turbine-worker/src/persistent.rs:1052-1163 | with the worker's tail the pipe carries headers, chunks concatenating to what was written, and the end frame |
| OutputRuns.ResponseReassembled | crates/turbine-worker/src/persistent.rs:1052-1163 | for every request, streamed or buffered, the reader decodes exactly the bytes PHP wrote under the first frame's status and headers |
| OutputHeaders.EditHeadersMeaning | crates/turbine-engine/src/output.rs:249-317 | one header call on one name, compared without case: replace leaves just the new value, add appends, delete clears, other names keep theirs |
| OutputHeaders.HeadersPerName | crates/turbine-engine/src/output.rs:249-317 | after any events the values of every name are what its own calls say, in order |
| OutputHeaders.EngagesAtFirstOpening | crates/turbine-engine/src/output.rs:148-233 | a request with a descriptor is streaming if and only if it was flushed or wrote after a header asked for it; its headers frame holds the headers in force before the first such event and the last status code unless that is 200, else the engine's code modulo 65536 if positive, else 200 |
| OutputHeaders.QuietRun | crates/turbine-engine/src/output.rs:148-233 | until then, or without a descriptor, nothing is sent and status and headers are buffered as the calls say |
| OutputHeaders.BufferedResponse | crates/turbine-worker/src/persistent.rs:1052-1163 | such a request goes out whole: status by the same rule at the end, headers, and all it wrote as one chunk |
| OutputHeaders.WantsStreamingIff | crates/turbine-engine/src/output.rs:148-166 | a header asks for streaming exactly if it is, without case, content-type with a value beginning after blanks with text/event-stream, or x-accel-buffering saying no between blanks |
| OutputHeaders.LastCodeMeaning | crates/turbine-engine/src/output.rs:284-291 | the code in force is that of the last status line, 200 without one |
| OutputHeaders.CodeIsLast | crates/turbine-engine/src/output.rs:284-291 | streaming or not, the stored code is always that one |
| OutputHeaders.HeadersSince | crates/turbine-engine/src/output.rs:89-184 | after the opening event the header buffer holds what the header calls since then say |
| OutputHeaders.EffectiveStatus | crates/turbine-engine/src/output.rs:89-107 | streamed and buffered responses choose the status by the same rule, for every stored and engine code |
| OutputHeaders.ResponseDelivered | crates/turbine-worker/src/persistent.rs:1052-1163 | end to end for every request: the reader decodes the bytes PHP wrote with the headers and status settled at the first opening or at the end, 500 for a failed request with a status from 200 to 399 |
| Envelope.Find | crates/turbine-core/src/response.rs:95-144 | the window search computes FindFrom |
| Envelope.FindPlaced | crates/turbine-core/src/response.rs:95-144 | a marker placed after text is first found there if and only if the text lacks it |
| Envelope.ParseU16Iff | crates/turbine-core/src/response.rs:95-144 | exactly the texts of 16-bit numbers parse |
| Envelope.StatusLineIff | crates/turbine-core/src/response.rs:122-127 | a status line sets the number it holds between blanks, 200 if it holds none, and no header |
| Envelope.HeaderLineIff | crates/turbine-core/src/response.rs:129-140 | a header line adds its halves around the first tab, trimmed; without a tab it is ignored |
| Envelope.CrIgnored | crates/turbine-core/src/response.rs:122-140 | a carriage return before the line break changes nothing |
| Envelope.TrimExact | crates/turbine-core/src/response.rs:122-140 | trimming takes exactly the bytes 9 to 13 and 32 off both ends |
| Envelope.ParseEnvelope | crates/turbine-core/src/response.rs:95-144 | the parser with its loops computes Parse, all None cases included |
| Envelope.ParsedSafe | crates/turbine-core/src/response.rs:95-144 | every header the parser reports is trimmed, on one line and without a tab in its name |
| Envelope.EnvelopeIff | crates/turbine-core/src/response.rs:5-27 | after noise without the status marker, parsing the emission gives back status, headers and body if and only if the headers are safe, the metadata lacks the body marker and is valid UTF-8 |
| Forms.DecodeUrl | crates/turbine-core/src/compat.rs:895-930 | the index loop computes UrlDecode |
| Forms.EveryTextTolerated | crates/turbine-core/src/compat.rs:895-930 | every byte string is a sequence of literals, pluses, triplets and stray percent signs |
| Forms.DecodesTolerated | crates/turbine-core/src/compat.rs:895-930 | any such sequence, so any input, decodes piece by piece, a stray percent sign to itself |
| Forms.DecodesToMeaning | crates/turbine-core/src/compat.rs:895-930 | every encoding of RFC 3986 section 2.1 with either case of each digit, and pluses for blanks, decodes to what it encodes |
| Forms.HexDigitIff | crates/turbine-core/src/compat.rs:923-930 | a byte is a digit of value n exactly if it is the lower-case or upper-case digit of n |
| Forms.EncodingExists | crates/turbine-core/src/compat.rs:895-930 | every byte string has an encoding free of separators |
| Forms.FieldParses | crates/turbine-core/src/compat.rs:878-921 | a field parses to its decoded key and value and is dropped exactly when its key is empty |
| Forms.FormRoundTrip | crates/turbine-core/src/compat.rs:878-921 | parsing any valid encoding of any fields returns the pairs with non-empty keys, decoded, in order |
| Forms.EscapeCons | crates/turbine-core/src/compat.rs:858-860 | the two replacement passes escape byte by byte |
| Forms.EscapeRoundTrip | crates/turbine-core/src/compat.rs:858-860 | for every string a PHP single-quote lexer reads the escaped text and closing quote back as the string and stops there |
| ResponseCache.StoreIsLatest | crates/turbine-cache/src/store.rs:102-200 | after any calls everything stored is the latest accepted put for its path |
| ResponseCache.OnlyGetMatches | crates/turbine-cache/src/store.rs:89-91 | a method without a colon shares a key with a stored response only if method and path are the same |
| ResponseCache.HitIsLatestPut | crates/turbine-cache/src/store.rs:102-118 | a hit is the latest accepted put for that method and path, not invalidated since, with equal source hash and younger than the TTL |
| ResponseCache.StoredIff | crates/turbine-cache/src/store.rs:102-247 | after any calls a path's entry is its latest put unless invalidated, cleared, evicted for another, found invalid or purged since |
| ResponseCache.HitIff | crates/turbine-cache/src/store.rs:102-118 | a lookup hits if and only if that entry is there with equal source hash and younger than the TTL |
| ResponseCache.PutBoundIff | crates/turbine-cache/src/store.rs:121-156 | an accepted put keeps the bound if and only if there is room, the key is present, or some entry was created earlier |
| ResponseCache.SizeBound | crates/turbine-cache/src/store.rs:121-233 | with room for one entry and a clock that advances between puts the size never exceeds the maximum |
| ResponseCache.SizeBoundNeedsClock | crates/turbine-cache/src/store.rs:218-233 | two puts at one instant exceed a maximum of one |
| ResponseCache.ResponseStore.constructor | crates/turbine-cache/src/store.rs:76-81 | an empty store with its configuration |
| ResponseCache.ResponseStore.GetEntry | crates/turbine-cache/src/store.rs:102-118 | the result is Lookup's, and an invalid entry is removed |
| ResponseCache.ResponseStore.EvictOldest | crates/turbine-cache/src/store.rs:218-233 | removes an entry of maximal age, or none when all ages are zero, whatever the iteration order |
| ResponseCache.ResponseStore.PutEntry | crates/turbine-cache/src/store.rs:121-156 | stores exactly GET responses with status 200 when enabled, evicting first at capacity |
| ResponseCache.ResponseStore.InvalidatePath | crates/turbine-cache/src/store.rs:196-200 | removes that path's entry only |
| ResponseCache.ResponseStore.PurgeExpired | crates/turbine-cache/src/store.rs:236-247 | keeps exactly the entries younger than the TTL and returns how many went |
| SharedTable.BytesRoundTrip | crates/turbine-core/src/shared_table.rs:139-171 | a 64-bit counter survives its eight bytes |
| SharedTable.GetInvisible | crates/turbine-core/src/shared_table.rs:108-122 | one get never changes the live view now or later, and returns what is live |
| SharedTable.SweepInvisible | crates/turbine-core/src/shared_table.rs:192-207 | one sweep never changes the live view now or later, and leaves exactly the live entries |
| TableEviction.EvictionInvisibleIff | crates/turbine-core/src/shared_table.rs:79-207 | for any sequence of calls under a clock that does not go back, evicting on gets and sweeps changes no answer if and only if no write gets in through room it made, and then no live view either |
| TableEviction.EvictionSeen | crates/turbine-core/src/shared_table.rs:79-122 | reading an expired key lets another key in at capacity one |
| SharedTable.SetVisible | crates/turbine-core/src/shared_table.rs:79-104 | a set fails exactly for a new key at capacity, is live until its deadline and touches no other key |
| SharedTable.DelVisible | crates/turbine-core/src/shared_table.rs:126-131 | a delete removes the key from view and says whether it was in view |
| SharedTable.IncrVisible | crates/turbine-core/src/shared_table.rs:139-171 | an increment adds to the visible counter, which stays visible as long as it would have, or starts over for good, touches no other key, and fails exactly for a visible non-counter or a new key at capacity |
| SharedTable.ClearVisible | crates/turbine-core/src/shared_table.rs:179-183 | a clear leaves nothing |
| SharedTable.WrapExact | crates/turbine-core/src/shared_table.rs:139-171 | the stored number differs from the exact one by a multiple of 2^64 |
| TableHistory.GetReadsLastWrite | crates/turbine-core/src/shared_table.rs:79-207 | for all calls under a clock that does not go back, a get returns the value of the last accepted write not deleted or cleared since, if its deadline is still to come, and nothing otherwise |
| SharedTable.SizeBound | crates/turbine-core/src/shared_table.rs:79-207 | no sequence of calls exceeds the maximum |
| SharedTable.CounterIsSum | crates/turbine-core/src/shared_table.rs:139-171 | a key written by increments only always holds the wrapped 64-bit sum of the accepted deltas, without a deadline |
| SharedTable.CountStep | crates/turbine-core/src/shared_table.rs:139-171 | one increment of such a key adds its delta modulo 2^64, fails only for a new key at capacity, and then changes nothing |
| SharedTable.Shared.constructor | crates/turbine-core/src/shared_table.rs:69-75 | an empty table |
| SharedTable.Shared.SetKey | crates/turbine-core/src/shared_table.rs:79-104 | new state and result are those of Set |
| SharedTable.Shared.GetKey | crates/turbine-core/src/shared_table.rs:108-122 | new state and result are those of Get |
| SharedTable.Shared.DelKey | crates/turbine-core/src/shared_table.rs:126-131 | removes the key; true exactly if it was live |
| SharedTable.Shared.IncrKey | crates/turbine-core/src/shared_table.rs:139-171 | new state and result are those of Incr: reset when expired, error unless eight bytes |
| SharedTable.Shared.SweepExpired | crates/turbine-core/src/shared_table.rs:192-207 | keeps exactly the unexpired entries and counts the others |
| Metrics.CumulativeCounts | crates/turbine-metrics/src/histogram.rs:44-53 | cumulative bucket k counts exactly the samples at or below boundary k, and the last one all samples |
| Metrics.SumIsTotal | crates/turbine-metrics/src/histogram.rs:44-53 | the sum is the total of the samples |
| Metrics.OrderStatisticExists | crates/turbine-metrics/src/histogram.rs:77-96 | every rank from one to the number of samples has an order statistic |
| Metrics.PercentileMeaning | crates/turbine-metrics/src/histogram.rs:77-96 | for every rank the scan returns the least boundary at or above that order statistic, or the mean if it lies above every boundary |
| Metrics.PercentileOfSamples | crates/turbine-metrics/src/histogram.rs:77-96 | for a fraction in (0, 1] the rank is the least that covers the fraction of the samples and the percentile is as stated for it; fraction 0 gives 100 |
| Metrics.LatencyHistogram.constructor | crates/turbine-metrics/src/histogram.rs:34-40 | all buckets, sum and count zero |
| Metrics.LatencyHistogram.RecordSample | crates/turbine-metrics/src/histogram.rs:44-53 | the buckets array, sum and count after one more sample |
| Metrics.LatencyHistogram.Percentile | crates/turbine-metrics/src/histogram.rs:77-96 | zero without samples, otherwise the scan for the ceiling rank |
| Metrics.RequestsAreSum | crates/turbine-metrics/src/collector.rs:77-110 | the request total is the number of requests and the sum over endpoints; the four classes miss exactly the statuses outside 200 to 599 |
| Metrics.TotalsAreCounts | crates/turbine-metrics/src/collector.rs:77-110 | each status class counts the requests in its own range, errors those from 500 to 599, bytes all bytes |
| Metrics.EndpointCounts | crates/turbine-metrics/src/collector.rs:77-110 | each endpoint counts its own requests, those of them with status 500 or more, and their bytes |
| Metrics.BytesAreSum | crates/turbine-metrics/src/collector.rs:77-110 | the byte total is the sum over endpoints |
| Metrics.ErrorsAreSum | crates/turbine-metrics/src/collector.rs:77-110 | endpoint errors exceed global errors by exactly the statuses of 600 and above |
| Metrics.ErrorsAgreeIff | crates/turbine-metrics/src/collector.rs:77-110 | so they agree if and only if there are none |
| Metrics.BucketsAreSum | crates/turbine-metrics/src/collector.rs:77-110 | each global latency bucket is the sum over endpoints |
| Metrics.GlobalHistogram | crates/turbine-metrics/src/collector.rs:77-110 | the global histogram is that of all latencies |
| Metrics.HistogramsPerPath | crates/turbine-metrics/src/collector.rs:77-110 | an endpoint exists exactly when its path was requested, with the histogram of its own requests |
| Metrics.MetricsCollector.constructor | crates/turbine-metrics/src/collector.rs:57-73 | all counters zero, no endpoint |
| Metrics.MetricsCollector.CountStatus | crates/turbine-metrics/src/collector.rs:82-96 | one class counter at most is incremented, errors with 5xx only |
| Metrics.MetricsCollector.RecordOne | crates/turbine-metrics/src/collector.rs:77-110 | all counters after one more request |
| RateGuard.AlwaysInv | crates/turbine-security/src/behaviour_guard.rs:137-312 | every run keeps: blocked exactly with a deadline, no deadline beyond ten minutes from now, no window in the future |
| RateGuard.DeadlineNeverEarlier | crates/turbine-security/src/behaviour_guard.rs:137-220 | an address blocked until d stays blocked until at least d in every later state before d, unless unblocked, whatever windows roll over |
| RateGuard.RefusedUntilDeadline | crates/turbine-security/src/behaviour_guard.rs:137-252 | every check of it before d is refused |
| RateGuard.BlockBegins | crates/turbine-security/src/behaviour_guard.rs:194-291 | a block begins exactly when an attempt reaches the threshold, or a check that is not too fast finds, itself included, enough requests in the window and too high an error rate |
| RateHistory.RateBound | crates/turbine-security/src/behaviour_guard.rs:172-192 | whenever a check is allowed, the checks counted in its window are at most ten or fit under the limit for the window's age (at least a millisecond) |
| RateHistory.WindowCounts | crates/turbine-security/src/behaviour_guard.rs:137-262 | in every run a tracked address's window began with a check or attempt at its time; its errors are the failed requests reported since, its requests the checks since that no block turned away |
| RateHistory.AttemptCounts | crates/turbine-security/src/behaviour_guard.rs:137-312 | in every run the attempts held against an address are those since it became known, was unblocked, or its window ended after its block ran out |
| RateHistory.CheckDecides | crates/turbine-security/src/behaviour_guard.rs:137-252 | a check of an address without a block in force is allowed exactly if the checks and errors of its window up to it are neither a flood nor a scan; a scan that is no flood blocks it for five minutes |
| RateHistory.AttemptDecides | crates/turbine-security/src/behaviour_guard.rs:265-291 | an attempt that brings the count to the threshold blocks the address for ten minutes from now; before that its block is as it was |
| RateHistory.UnblockedCheck | crates/turbine-security/src/behaviour_guard.rs:303-312 | the first check after an unblock is decided by the window alone |
| RateHistory.BlockLasts | crates/turbine-security/src/behaviour_guard.rs:160-170 | a blocked address is barred exactly until its deadline, and refused while it is |
| RateHistory.NoRoom | crates/turbine-security/src/behaviour_guard.rs:223-291 | an address for which there is no room is let through and stays untracked |
| RateGuard.WindowLength | crates/turbine-security/src/behaviour_guard.rs:138-158 | after a check no window is older than configured |
| RateGuard.InnocentIff | crates/turbine-security/src/behaviour_guard.rs:137-252 | an address without errors or recorded attempts is refused exactly when tracked and too fast |
| RateGuard.TotalsAndCap | crates/turbine-security/src/behaviour_guard.rs:223-252 | the blocked counter is the number of refused checks, and tracked addresses never exceed the cap |
| RateGuard.BehaviourGuard.constructor | crates/turbine-security/src/behaviour_guard.rs:101-120 | nothing tracked, nothing refused |
| RateGuard.BehaviourGuard.EvaluateProfile | crates/turbine-security/src/behaviour_guard.rs:137-220 | verdict, profile and counter are those of Evaluate; no other profile changes |
| RateGuard.BehaviourGuard.CheckRequest | crates/turbine-security/src/behaviour_guard.rs:223-252 | new state and verdict of a check; an unknown address at the cap is allowed and not tracked |
| RateGuard.BehaviourGuard.RecordRequest | crates/turbine-security/src/behaviour_guard.rs:255-262 | counts an error of a tracked address only |
| RateGuard.BehaviourGuard.RecordSqliAttempt | crates/turbine-security/src/behaviour_guard.rs:265-291 | counts the attempt and blocks for ten minutes from the threshold on |
| RateGuard.BehaviourGuard.UnblockIp | crates/turbine-security/src/behaviour_guard.rs:303-312 | clears block, deadline and attempts; false exactly for an untracked address |

## Left out

- TLS, ACME, the HTTP front end, compression codecs, WebSocket sessions, the file watcher, the CLI, the dashboard and Prometheus text.
- `WorkerPool`, forking and spawning workers: the pipes a refresh installs are any that reuse known ones or are new.
- The PHP engine, its C shims and php.ini generation.
- SQL and code pattern guards, the path guard and upload scanning.
- Response isolation in channel mode, where the guard is not armed; the fds the pool registers there are any dummies.
- A per-lifetime request quota: a refresh zeroes every slot's count, so only the check at pick time is stated.
- The size and eviction counters of the shared table as observations: they show an eviction at once.
- Fairness: a parked follower, pop or `get_idle` is shown able to proceed, not that the scheduler lets it.
- Races inside the concurrent maps: each call on the cache, the table and the guard is one step.
- Wrap-around of `u64` and `u32` statistics and request counters.
- gzip, the source hash (an arbitrary number), lossy UTF-8 and `f64` rounding; trimming and case folding are ASCII.
- Path canonicalisation and file-system failures of the extractor: which names are inside and writable is a parameter; directories made only as parents and permission bits are not modelled.
- Metrics.MetricsCollector.RecordOne: its histograms are values in the object, so sharing of histogram objects is not modelled.
