# Verified models of the NVIDIA open GPU kernel modules

Dafny models of the parts of the NVIDIA kernel modules that are hardest to get right,
with proofs about every run of each of them. `dafny verify dfyconfig.toml` checks the
whole project.

| file | what it models |
|---|---|
| `KthreadQueue.dfy` | the `nv_kthread_q` work queue: consumer thread, schedulers, flush and stop, step by step |
| `FlipQueue.dfy` | delivery of flip events in nvidia-drm: the atomic commit path racing the flip event handler |
| `NvkmsTimers.dfy` | NVKMS timers, the reference-counted pointers they carry, and the drain before module unload |
| `TimerObject.dfy` | the same timers as an object, with the callback and the drain as methods |
| `UnloadStop.dfy`, `UnloadExample.dfy` | the timers on the work queue's own steps, up to the return of `nv_kthread_q_stop`, and a complete run |
| `PerOpenClose.dfy` | closing an NVKMS open on top of the work queue |
| `LayerConfig.dfy` | incremental plane configuration: change flags against a full copy |
| `PrimeFence.dfy` | PRIME fences: pending list, sequence wrap, reference counts |
| `Masks.dfy`, `Permissions.dfy` | modeset permissions: head selection by bit masks, and the matching of connectors and CRTCs |
| `Firmware.dfy` | the firmware extractor: scanner, binary layouts, and a reader that undoes them |
| `QueueProgress.dfy`, `FlipProgress.dfy`, `TimerProgress.dfy`, `CloseProgress.dfy` | that queue, flips, timers and closes get to their end: nobody is stuck, and a rank falls |
| `Common.dfy` | finite executions of a state machine, and induction over them |

## How the models are built

A concurrent component is a state machine: a `State`, a `Step`, a predicate `Enabled` that
says when a step can be taken, and a function `Do` that takes it. A step is one critical
section or one access to shared state. `Run(run)` is a finite execution from an initial
state, and the theorems are about every index of every such run, that is, about every
interleaving. Histories (what was accepted, sent, signalled, freed) are part of the state
and are never read to decide a step. Memory is explicit: a step that touches what is not
allocated, or frees what something still points to, sets `fault` (or, for the flip list,
`badDequeue`), and it is proved that no run does.

Safety alone would also hold of a machine that does nothing. So each concurrent component
has a progress result as well: as long as something is left to do some thread can go on,
every such step lowers a rank, and hence every run can be continued to one that is done.

Beside the machine stands an imperative class or method for the code that updates objects
in place or loops. Each is proved against the functions that the machine is made of.

## What is false, and when

Some of what one would expect does not hold. In each case there is a run or an input that
shows the failure, and a statement over all runs or inputs that says exactly when it happens.

- The flip list is a stack, and so is the list of deferred flips, although the comment at
  nvidia-drm-modeset.c:483-487 means them to keep events in order. Events stay in commit
  order if and only if no hardware flip with an event is committed while an event is listed
  and no event is deferred behind a flip that has one deferred already (`OrderIff`;
  `StackedRun` and `DeferredRun` are runs in which that happens). Nonblocking commits never
  do the first (`NonblockingIsDisciplined`).
- One flush round does not cover an item that reschedules itself (`OneRoundIsNotEnough`);
  two always do (`DoubleFlush`).
- `nv_kthread_q_stop` can leave items behind (`StopLeavesWork`); `StopIff` says exactly when.
  On module unload it does not (`StopFindsQueueEmpty`).
- A flush beside a stop can hang for good (`FlushBesideStop`, `HangsForever`); `HangsIff`
  says exactly which. While the queue is not stopped no flush waits in vain
  (`QueueProgress.NeverStuck`).
- Checking a plane more than once in one update can lose a change (`CheckedManyTimes` gives
  the exact condition, `RepeatedCheckLosesMove` an instance).
- A fence of a live context can be signalled before its own release: exactly if its number
  is not above the initial value or an earlier number, or a later number goes backwards
  (`EarlyExactly`; `WrapIsEarly` is a run). So numbers are safe if and only if they rise
  (`SafeIffRising`). Destroying the context signals whatever is pending (`DestroyIsEarly`).
- Revoking a lease that holds a CRTC but not the connector paired with it breaks the
  matching (`LeaseIff` is the exact condition); the next grant can then give the CRTC to a
  second connector (`LeaseWithoutConnector`). Closed files are gone all the same
  (`ClosedFilesAreGone`).
- The headers of a booter image fix the descriptor's size at 36 bytes; with any other size
  the reader does not get the arrays back (`BooterRoundTrip`), and the stored total size is
  the right one only within the rounding (`BooterTotal`).
- The scanner's message for an uncompressed array of the wrong size reads the compressed
  size, which no line may have set; then the scan fails on the unset variable
  (`WrongSizeIsUnbound`, exactly when in `WrongSizeReport` and `UnboundIff`).

## Model

| member | source | states |
|---|---|---|
| KthreadQueue.SemaphoreInvariant | kernel-open/nvidia-modeset/nv-kthread-q.c:75-148 | in every run, until stop posts, the list is as long as the semaphore count plus schedulers between append and post plus the token of a consumer between down and dequeue; a consumer past the exit check finds an item, so the empty-queue branch is never taken, also with stop's extra post |
| KthreadQueue.FifoExactlyOnce | kernel-open/nvidia-modeset/nv-kthread-q.c:92-116 | what was dequeued followed by what is listed equals what was accepted, in order; no item is listed twice; both logs only grow |
| KthreadQueue.DoubleFlush | kernel-open/nvidia-modeset/nv-kthread-q.c:301-329 | when flush returns, everything accepted before the call has run to completion, and so has every entry that one of those items asked for while running, itself included |
| KthreadQueue.RequestIsRecorded | kernel-open/nvidia-modeset/nv-kthread-q.c:252-270 | each time a running item asks for an item, the request is on record with an entry of that item still to be dequeued, a new one or the one already listed |
| KthreadQueue.OneRoundIsNotEnough | kernel-open/nvidia-modeset/nv-kthread-q.c:325-328 | a reachable state in which the first flush item has completed and the entry an earlier item asked for has not run |
| KthreadQueue.StopIff | kernel-open/nvidia-modeset/nv-kthread-q.c:124-148 | when the thread has exited, the queue is empty with every accepted item run if and only if, when the exit flag was set, no more was listed than the one item of a consumer past its check, and nothing was accepted since |
| KthreadQueue.StopRunsAll | kernel-open/nvidia-modeset/nv-kthread-q.c:130-136 | if nothing but flush items was accepted since stop was called, every item has run to completion once stop's flush has returned |
| KthreadQueue.StopLeavesWork | kernel-open/nvidia-modeset/nv-kthread-q.c:132-136 | a run in which an item accepted after stop's second flush round is still listed when stop has returned |
| QueueProgress.NeverStuck | kernel-open/nvidia-modeset/nv-kthread-q.c:75-122 | in every run, while the queue is not stopped and something is listed, running or called, some thread can go on with what it has begun: no wakeup is lost and no flush waits in vain |
| QueueProgress.RankFalls | kernel-open/nvidia-modeset/nv-kthread-q.c:75-122 | every such step lowers a rank over the list, the consumer and any number of threads |
| QueueProgress.CanSettle | kernel-open/nvidia-modeset/nv-kthread-q.c:301-329 | every run that has not stopped the queue can be continued without new calls until nothing is listed and every flush has returned |
| QueueProgress.RestMeansRun | kernel-open/nvidia-modeset/nv-kthread-q.c:92-116 | then every accepted entry has run to completion |
| QueueProgress.HangsIff | kernel-open/nvidia-modeset/nv-kthread-q.c:124-148 | a flush that waits when the thread has exited hangs if and only if its item was, when the exit flag was set, behind the one item of a consumer past its check, or not accepted yet |
| QueueProgress.HangsForever | kernel-open/nvidia-modeset/nv-kthread-q.c:301-329 | such a flush never returns in any continuation |
| QueueProgress.FlushBesideStop | kernel-open/nvidia-modeset/nv-kthread-q.c:316-329 | a run in which a flush has read the exit flag before stop sets it, and hangs after stop has returned |
| KthreadQueue.ExecuteIsFifo | kernel-open/nvidia-modeset/nv-kthread-q.c:75-122 | items queued when the loop starts run first and in order whatever is scheduled meanwhile; what is scheduled in any turn does run, and what an item schedules runs after it |
| KthreadQueue.WorkQueue.RawSchedule | kernel-open/nvidia-modeset/nv-kthread-q.c:252-270 | refused exactly if the item is pending; otherwise appended, with one semaphore post |
| KthreadQueue.WorkQueue.ScheduleItem | kernel-open/nvidia-modeset/nv-kthread-q.c:282-292 | refused exactly if the item is pending or the queue was stopped |
| KthreadQueue.WorkQueue.RunItem | kernel-open/nvidia-modeset/nv-kthread-q.c:106-113 | a function that schedules items leaves the list that scheduling them in turn gives, or the list as it was once the queue is stopped |
| KthreadQueue.WorkQueue.Consume | kernel-open/nvidia-modeset/nv-kthread-q.c:90-116 | one turn takes the first item and runs it, keeping the log, the list and the count consistent |
| KthreadQueue.WorkQueue.MainLoop | kernel-open/nvidia-modeset/nv-kthread-q.c:75-122 | runs items in the order of the reference execution, whoever schedules while it runs an item or waits for one, until nothing is listed or to come; nothing once the exit flag is set |
| FlipQueue.FlipOwnership | kernel-open/nvidia-drm/nvidia-drm-modeset.c:335-377 | in every run each flip object is in exactly one place (a CRTC state, the commit, a flip list or a deferred list of one, the handler, freed); it is freed at most once; its event is sent at most once, and exactly once when the flip retires |
| FlipQueue.PlacesStep | kernel-open/nvidia-drm/nvidia-drm-modeset.c:482-516 | every step moves flip objects between places and loses or duplicates none |
| FlipQueue.EventsStep | kernel-open/nvidia-drm/nvidia-drm-modeset.c:348-376 | events sent and events still in a place always make up the events committed |
| FlipQueue.PendingConservation | kernel-open/nvidia-drm/nvidia-drm-crtc.h:243-269 | the counters of the listed flips add up to the hardware events still to come, each is positive, and an event never finds the list empty or a counter at zero |
| FlipProgress.NeverStuck | kernel-open/nvidia-drm/nvidia-drm-modeset.c:335-551 | in every run, as long as a CRTC is not at rest, some thread of the device can go on without a new commit and without a timeout |
| FlipProgress.RankFalls | kernel-open/nvidia-drm/nvidia-drm-modeset.c:335-551 | every step that begins nothing lowers the rank of its CRTC |
| FlipProgress.CanSettle | kernel-open/nvidia-drm/nvidia-drm-modeset.c:335-551 | every run can be continued without a new commit and without a timeout until the whole device is at rest, with the same flip objects |
| FlipProgress.RestMeansDelivered | kernel-open/nvidia-drm/nvidia-drm-modeset.c:348-376 | on a CRTC at rest every flip object ever made has been freed exactly once and every committed event sent exactly once |
| FlipQueue.OrderIff | kernel-open/nvidia-drm/nvidia-drm-modeset.c:482-516 | at every index of every run, the events of a CRTC are sent or in line in commit order if and only if no hardware flip with an event was committed while an event was listed, and no event was deferred behind a flip that had one deferred already |
| FlipQueue.FlipOrder | kernel-open/nvidia-drm/nvidia-drm-modeset.c:396-551 | while no step has overtaken, what a CRTC has sent is a prefix of its committed events in commit order and what is in line is the rest, including immediate deliveries that race a handler and waits that time out |
| FlipQueue.DisciplineSuffices | kernel-open/nvidia-drm/nvidia-drm-modeset.c:396-428 | if no wait times out and hardware flips are committed on an empty list only, no step overtakes and all events are delivered in commit order |
| FlipQueue.NonblockingIsDisciplined | kernel-open/nvidia-drm/nvidia-drm-modeset.c:396-428 | in every run an admitted nonblocking commit finds no flip listed, so its hardware flip overtakes nothing |
| FlipQueue.OrderIsForever | kernel-open/nvidia-drm/nvidia-drm-modeset.c:335-377 | once an event is in line before another it stays so in every continuation |
| FlipQueue.DeliveryStep | kernel-open/nvidia-drm/nvidia-drm-modeset.c:482-516 | a step inserts at most one event into the delivery order and never permutes it |
| FlipQueue.StackedCommitReorders | kernel-open/nvidia-drm/nvidia-drm-crtc.h:232-238 | a hardware flip committed while an earlier flip is listed is delivered before it in every continuation |
| FlipQueue.SecondDeferralReorders | kernel-open/nvidia-drm/nvidia-drm-modeset.c:482-500 | a second flip deferred behind the same listed flip is delivered before the first |
| FlipQueue.StackedRun | kernel-open/nvidia-drm/nvidia-drm-modeset.c:518-551 | a run in which a blocking hardware flip is listed in front of a nonblocking one and its event is delivered first |
| FlipQueue.DeferredRun | kernel-open/nvidia-drm/nvidia-drm-modeset.c:482-500 | a run in which a wait times out and a second deferred event is delivered before the first |
| FlipQueue.WillGenerateFlipEvent | kernel-open/nvidia-drm/nvidia-drm-modeset.c:88-127 | pending is the size of the set of planes of the CRTC, cursor apart, that showed a buffer while the CRTC was active; an event will come exactly if there is one |
| FlipQueue.NvCrtc.DequeueFlip | kernel-open/nvidia-drm/nvidia-drm-crtc.h:243-269 | counts one event off the head, in 32 bits (a counter of zero becomes 0xFFFFFFFF), and returns the head, taken off the list, exactly if its counter was one; an empty list stays empty |
| FlipQueue.NvCrtc.HandleFlipEvent | kernel-open/nvidia-drm/nvidia-drm-modeset.c:335-377 | a retired flip delivers its event, then those deferred behind it in list order; each deferred flip is freed once, in order, and the flip itself last |
| FlipQueue.NvCrtc.AtomicCommit | kernel-open/nvidia-drm/nvidia-drm-modeset.c:379-516 | refused exactly if nonblocking with a flip listed; otherwise the flip is listed, deferred or delivered at once, and the rest is unchanged |
| NvkmsTimers.TimerFreedOnce | kernel-open/nvidia-modeset/nvidia-modeset-linux.c:608-666 | no run touches freed memory or frees memory in use; a timer is freed at most once, and exactly once when its owner has let go (before the callback, inside the proc or after it) and it is out of service |
| NvkmsTimers.WeakPointerSafety | kernel-open/nvidia-modeset/nvidia-modeset-linux.c:530-573 | the count of a ref_ptr is the owner's reference plus one for each timer that has not released its own; it is freed once, exactly when none is left; no proc starts for a cancelled timer or a cleared target |
| NvkmsTimers.UnloadDrain | kernel-open/nvidia-modeset/nvidia-modeset-linux.c:1687-1739 | after the drain every timer still listed is already queued; once the queue has run empty every timer ever allocated was freed exactly once |
| NvkmsTimers.DrainTerminates | kernel-open/nvidia-modeset/nvidia-modeset-linux.c:1703-1733 | each step of the restart loop lowers a rank that no other thread can raise |
| TimerProgress.NeverStuck | kernel-open/nvidia-modeset/nvidia-modeset-linux.c:608-666 | in every run, until the module is unloaded, the queue's thread, a timer callback, the drain or an owner that lets go can go on |
| TimerProgress.RankFalls | kernel-open/nvidia-modeset/nvidia-modeset-linux.c:1703-1733 | every such step lowers a rank over the timers, the queue, the callback, the drain and the owners |
| TimerProgress.CanUnload | kernel-open/nvidia-modeset/nvidia-modeset-linux.c:1687-1739 | every run can be continued without new timers until the module is unloaded, and then every timer ever allocated has been freed exactly once |
| NvkmsTimers.FullStep | kernel-open/nvidia-modeset/nvidia-modeset-linux.c:587-796 | every step of the queue's thread, the drain, the kernel timer and the callers keeps all timer, list, lock and reference invariants |
| UnloadStop.StopFindsQueueEmpty | kernel-open/nvidia-modeset/nvidia-modeset-linux.c:1735-1736 | in every run of the timers on the work queue's own steps, when nv_kthread_q_stop is about to return no timer is queued or running |
| UnloadStop.UnloadFreesAll | kernel-open/nvidia-modeset/nvidia-modeset-linux.c:1687-1739 | when nv_kthread_q_stop has returned every timer ever allocated has been freed exactly once and no freed memory was touched |
| UnloadExample.UnloadRun | kernel-open/nvidia-modeset/nvidia-modeset-linux.c:1687-1739 | a run in which a timer is allocated, queued and freed by its owner while its callback begins, and nv_kthread_q_stop has returned |
| UnloadStop.NothingScheduled | kernel-open/nvidia-modeset/nvidia-modeset-linux.c:1698-1733 | once the drain is over no timer can be put on the queue any more |
| UnloadStop.FlushedIsQuiet | kernel-open/nvidia-modeset/nv-kthread-q.c:316-329 | when the flush of stop returns and no timer was queued since its start, none is queued or running |
| UnloadStop.TakeIsPossible | kernel-open/nvidia-modeset/nvidia-modeset-linux.c:608-622 | the item that the consumer dequeues is the first timer queued, and no other callback is running |
| TimerObject.CallbackIsRun | kernel-open/nvidia-modeset/nvidia-modeset-linux.c:608-666 | an undisturbed callback is a run of the state machine and keeps its invariants |
| TimerObject.CallbackOutcome | kernel-open/nvidia-modeset/nvidia-modeset-linux.c:638-663 | the proc is called exactly if neither owner nor target let go; the timer survives, complete and owned, exactly if the proc was called, there is no ref_ptr, and the proc did not free it |
| TimerObject.NvkmsModule.QueueCallback | kernel-open/nvidia-modeset/nvidia-modeset-linux.c:608-666 | the proc is called exactly if it is due, the timer survives exactly if the proc was called, there is no ref_ptr and the proc did not free it, and all invariants are kept |
| TimerObject.NvkmsModule.ReleaseTimer | kernel-open/nvidia-modeset/nvidia-modeset-linux.c:782-796 | a completed timer is freed, any other cancelled, and all invariants are kept |
| TimerObject.NvkmsModule.FreeRefPtr | kernel-open/nvidia-modeset/nvidia-modeset-linux.c:547-554 | clears the target and drops the owner's reference, and all invariants are kept |
| TimerObject.NvkmsModule.DecRef | kernel-open/nvidia-modeset/nvidia-modeset-linux.c:568-573 | returns the target as it was; the ref_ptr survives exactly if another reference is left |
| TimerObject.NvkmsModule.Drain | kernel-open/nvidia-modeset/nvidia-modeset-linux.c:1703-1733 | from any reachable state and with any set of timers firing before the loop gets to them, the restart loop frees exactly the other armed timers, in list order, each with its reference, waits until those that fired are queued, leaves only timers that are in the hands of the queue, and is a run of the state machine |
| PerOpenClose.CloseSafety | kernel-open/nvidia-modeset/nvidia-modeset-linux.c:1110-1171 | in every run each open is closed at most once and freed at most once, in this order, on the direct or the deferred path; once freed, its queue item is not listed, running or being scheduled |
| PerOpenClose.RequestIsServed | kernel-open/nvidia-modeset/nvidia-modeset-linux.c:1149-1171 | in every run a popen whose close was asked for is in the deferred queue, in the hands of one closing thread, or freed, and never open again; it is deferred exactly if the power management lock was taken; nvKmsClose was called for it once exactly if it is past that stage |
| CloseProgress.NeverStuck | kernel-open/nvidia-modeset/nvidia-modeset-linux.c:1110-1171 | in every run, as long as a popen is being closed or waits for it, the lock is held or the queue has work, some thread can go on |
| CloseProgress.RankFalls | kernel-open/nvidia-modeset/nvidia-modeset-linux.c:1110-1171 | every such step lowers a rank over popens, lock and queue |
| CloseProgress.CanClose | kernel-open/nvidia-modeset/nvidia-modeset-linux.c:1110-1171 | every run in which the close of a popen was asked for can be continued without new calls until the popen is freed |
| CloseProgress.DeferredCloseRun | kernel-open/nvidia-modeset/nvidia-modeset-linux.c:1149-1171 | a run in which a popen has an event on its way when its close is deferred, and in the end it is closed and freed once after the event has run |
| PerOpenClose.CloseIsQuiet | kernel-open/nvidia-modeset/nvidia-modeset-linux.c:422-448 | when nvKmsClose is called under nvkms_lock no thread is in the middle of scheduling the open's event item |
| PerOpenClose.FlushedMeansDone | kernel-open/nvidia-modeset/nvidia-modeset-linux.c:1126-1143 | after the flush every entry of an item accepted before its start has run to completion |
| LayerConfig.DeltaRefinesFull | kernel-open/nvidia-drm/nvidia-drm-crtc.c:207-238 | over every sequence of checks and commits with no layer checked twice, copying only flagged groups leaves on every layer of every CRTC what copying the whole configuration leaves |
| LayerConfig.LayersFollowRequests | kernel-open/nvidia-drm/nvidia-drm-crtc.c:207-238 | over every sequence of updates, each layer of the engine that copies flagged groups only shows the plane state last committed for it (framebuffer, integer parts of the 16.16 source rectangle, destination rectangle), and nothing where the plane left the CRTC or has no framebuffer |
| LayerConfig.SucceedsIff | kernel-open/nvidia-drm/nvidia-drm-crtc.c:550-583 | an update succeeds if and only if no plane with a framebuffer that it puts on a layer of one of its CRTCs is rejected |
| LayerConfig.IncrementalAll | kernel-open/nvidia-drm/nvidia-drm-crtc.c:748-769 | after any number of checks each layer is an unflagged copy of the old one or carries flags that turn the old configuration into the new |
| LayerConfig.CheckedTwice | kernel-open/nvidia-drm/nvidia-drm-crtc.c:441-474 | for any two successful checks, the flags of the second are right if and only if it takes the surface away, enables a layer the first left without surface, or repeats what the first left only in groups where that equals what is shown |
| LayerConfig.CheckedManyTimes | kernel-open/nvidia-drm/nvidia-drm-crtc.c:441-474 | the same for the last of any number of checks, against what the check before it left |
| LayerConfig.RepeatedCheckLosesMove | kernel-open/nvidia-drm/nvidia-drm-crtc.c:441-474 | the same request checked twice leaves the old position on screen |
| LayerConfig.CursorFollowsRequests | kernel-open/nvidia-drm/nvidia-drm-crtc.c:111-205 | over any sequence of updates the cursor shown is the one asked for last, although the cursor is not copied between states |
| LayerConfig.CursorShowsLast | kernel-open/nvidia-drm/nvidia-drm-crtc.c:111-145 | after an update that shows a cursor, its framebuffer is at its position; one that takes it away leaves none; one that does not touch it leaves it |
| LayerConfig.CursorCheckedTwice | kernel-open/nvidia-drm/nvidia-drm-crtc.c:111-205 | a further check of the cursor in one update shows what was asked for if and only if nothing is to be shown, the cursor was without surface, its position differs from what the earlier check left, or that position is on screen already |
| LayerConfig.FullCursorCopy | kernel-open/nvidia-drm/nvidia-drm-crtc.c:104-109 | for the cursor a full copy agrees with the flagged copy if and only if the update touches the cursor or none is shown |
| LayerConfig.CrtcStates.PlaneAtomicCheck | kernel-open/nvidia-drm/nvidia-drm-crtc.c:523-583 | fails exactly if the plane is put with a framebuffer on one of the CRTCs and is rejected; otherwise its layer on each CRTC shows the new plane state, or nothing if it left or has no framebuffer, or is untouched, and other layers are untouched |
| PrimeFence.SignalOrder | kernel-open/nvidia-drm/nvidia-drm-fence.c:344-385 | in every run fences are signalled in creation order, each once; the pending ones are sorted by number up to last_seqno; all are signalled once the context is destroyed |
| PrimeFence.HandlerIsFilter | kernel-open/nvidia-drm/nvidia-drm-fence.c:166-199 | with the semaphore at a value the early-exit loop signals exactly the pending fences up to it, in order |
| PrimeFence.HandlerBounds | kernel-open/nvidia-drm/nvidia-drm-fence.c:174-195 | with a semaphore that moves between two values during the loop, everything up to the lower is signalled and nothing above the higher |
| PrimeFence.NoEarlySignal | kernel-open/nvidia-drm/nvidia-drm-fence.c:143-199 | a fence is signalled while the semaphore shows less than its number only because a later number went backwards or the context was destroyed |
| PrimeFence.EarlyIff | kernel-open/nvidia-drm/nvidia-drm-fence.c:166-199 | with releases written in creation order and a steady semaphore, the handler signals a fence before its own release if and only if the oldest fence neither signalled nor released has a number not above the one written last |
| PrimeFence.EarlyExactly | kernel-open/nvidia-drm/nvidia-drm-fence.c:143-199 | over all runs on a live context with given numbers, a fence can be signalled before its release if and only if its number is not above the initial value or an earlier number, or a later number goes backwards |
| PrimeFence.SafeIffRising | kernel-open/nvidia-drm/nvidia-drm-fence.c:143-199 | no run on a live context signals a fence before its release if and only if the numbers rise from the initial value |
| PrimeFence.EarlyIsExplained | kernel-open/nvidia-drm/nvidia-drm-fence.c:143-199 | in every run a fence signalled before its release was signalled by the destruction of the context, or has a number not above the initial value or an earlier one, or is followed by a number that goes backwards |
| PrimeFence.ForcedEarly | kernel-open/nvidia-drm/nvidia-drm-fence.c:356-362 | outside the handler exactly the unreleased pending fences are signalled early, exactly when a number goes backwards or the context is destroyed |
| PrimeFence.DestroyIsEarly | kernel-open/nvidia-drm/nvidia-drm-fence.c:206-222 | for any numbers there is a run in which all fences are signalled by the time the context is destroyed and none has been released |
| PrimeFence.RisingIsNeverEarly | kernel-open/nvidia-drm/nvidia-drm-fence.c:143-199 | in every run, also with a semaphore that moves during the handler, fences with numbers that rise from the initial value are signalled before their release only by the destruction of the context, and never while it lives |
| PrimeFence.NotRisingCanBeEarly | kernel-open/nvidia-drm/nvidia-drm-fence.c:356-381 | for any numbers of which one is not above the initial value or an earlier one there is a run on a live context in which the handler signals that fence before its release |
| PrimeFence.FallCanBeEarly | kernel-open/nvidia-drm/nvidia-drm-fence.c:356-362 | for any numbers, a fence followed by a number that goes backwards is signalled in some run on a live context although nothing was released |
| PrimeFence.WrapIsEarly | kernel-open/nvidia-drm/nvidia-drm-fence.c:356-362 | a run in which a fence created by a wrap is signalled while the semaphore holds a number from before the wrap |
| PrimeFence.MonotoneMeansReached | kernel-open/nvidia-drm/nvidia-drm-fence.c:356-362 | with numbers that never decrease a live context signals only fences that were reached |
| PrimeFence.FenceLifetime | kernel-open/nvidia-drm/nvidia-drm-fence.c:344-385 | a fence's count is the number of its references (list, creator, reservation objects); it is released once, exactly when none is left, so never while pending |
| PrimeFence.AttachedStays | kernel-open/nvidia-drm/nvidia-drm-fence.c:568-586 | in every run a fence whose reservation succeeded stays allocated, whatever is signalled, released by the ioctl or destroyed, until a reservation object gives up a reference |
| PrimeFence.ResvStep | kernel-open/nvidia-drm/nvidia-drm-fence.c:574-583 | the references through reservation objects change only by a successful reservation, by a lookup and by a put, each by one |
| PrimeFence.AttachedRun | kernel-open/nvidia-drm/nvidia-drm-fence.c:574-586 | a run in which a signalled fence is kept by the reservation object alone and released when that gives it up |
| PrimeFence.InvStep | kernel-open/nvidia-drm/nvidia-drm-fence.c:508-596 | creation, the steps of the attach ioctl, events, reservation objects and destruction keep order, sortedness, justification and counts |
| PrimeFence.ForcePops | kernel-open/nvidia-drm/nvidia-drm-fence.c:151-164 | force signalling empties the list from the front |
| PrimeFence.FenceContext.ForceFenceSignal | kernel-open/nvidia-drm/nvidia-drm-fence.c:151-164 | every pending fence is signalled once, in list order, and nothing else changes |
| PrimeFence.FenceContext.FenceEvent | kernel-open/nvidia-drm/nvidia-drm-fence.c:166-199 | signals the fences at the front whose number had been reached when they were looked at, and stops at the first that had not |
| PrimeFence.FenceContext.SignalFence | kernel-open/nvidia-drm/nvidia-drm-fence.c:143-149 | takes the first fence off the list, signals it and drops the list's reference |
| PrimeFence.FenceContext.Create | kernel-open/nvidia-drm/nvidia-drm-fence.c:344-385 | without memory nothing changes; otherwise the new fence is last in the list with two references, after a wrap emptied the list, and the invariants are kept |
| Permissions.PermissionMatching | kernel-open/nvidia-drm/nvidia-drm-drv.c:836-1056 | in every run of grants, revocations, closes, hotplug and lease revocations that respect the pairs, a connector has a file iff it has a CRTC, the CRTC has the same file, no two connectors share a CRTC, every granted CRTC is paired, and no closed file is left |
| Permissions.ClosedFilesAreGone | kernel-open/nvidia-drm/nvidia-drm-drv.c:1042-1194 | in every run, whatever leases are revoked, nothing refers to a closed file, a connector has a file iff it points to a CRTC, and a CRTC with a file is pointed to by a connector with that file |
| Permissions.CloseIsForever | kernel-open/nvidia-drm/nvidia-drm-drv.c:1042-1056 | once a file is closed nothing refers to it in any continuation |
| Permissions.CloseClears | kernel-open/nvidia-drm/nvidia-drm-drv.c:1042-1056 | closing leaves no trace of the file, also where leases have torn pairs apart; the second pass over the CRTCs changes nothing |
| Permissions.RevokeClears | kernel-open/nvidia-drm/nvidia-drm-drv.c:1000-1022 | revoking for display 0 leaves no trace of the file on any device whatever |
| Permissions.RevokeExactly | kernel-open/nvidia-drm/nvidia-drm-drv.c:978-1030 | revoking for a display takes the permission from exactly the connectors that have the file and the display, and from the CRTCs they point to; for display 0, from everything that has the file; all else is unchanged |
| Permissions.IoctlRevokes | kernel-open/nvidia-drm/nvidia-drm-drv.c:1032-1040 | the ioctl takes away exactly what the file holds on the display, and is refused without a display |
| Permissions.LeaseExactly | kernel-open/nvidia-drm/nvidia-drm-drv.c:1149-1194 | revoking a lease takes the permission from exactly the leased connectors, the CRTCs they point to, and the leased CRTCs |
| Permissions.DetectExactly | kernel-open/nvidia-drm/nvidia-drm-connector.c:186-214 | a connector found disconnected loses its permission, with the CRTC it points to, and nothing else changes; one found connected changes only its encoder |
| Permissions.LeaseIff | kernel-open/nvidia-drm/nvidia-drm-drv.c:1149-1194 | lease revocation keeps the matching if and only if no leased CRTC is paired with a connector outside the lease |
| Permissions.LeaseWithoutConnector | kernel-open/nvidia-drm/nvidia-drm-drv.c:1181-1187 | a run in which a lease of the CRTC alone is revoked and the next grant pairs the CRTC with a second connector |
| Permissions.PickIff | kernel-open/nvidia-drm/nvidia-drm-drv.c:881-935 | a CRTC is found if and only if some visible, ungranted CRTC whose head the display can use drives the connector itself or none; the one found is such a CRTC; the one that drives the connector is preferred, else it is the first |
| Permissions.TargetIff | kernel-open/nvidia-drm/nvidia-drm-drv.c:857-925 | a grant gets as far as asking NVKMS if and only if the first connector with the display is visible and not granted, and some CRTC is eligible for it |
| Permissions.SelectCrtc | kernel-open/nvidia-drm/nvidia-drm-drv.c:890-935 | the scans over bit masks make the set-level choice, and a mask that is not empty always leads to a CRTC |
| Permissions.FreeHeadBits | kernel-open/nvidia-drm/nvidia-drm-drv.c:890-899 | the mask holds exactly the heads in the display's head mask that belong to a visible, ungranted CRTC |
| Permissions.RemoveUsedHeads | kernel-open/nvidia-drm/nvidia-drm-drv.c:904-915 | of a mask of heads exactly those remain that no connector uses |
| Permissions.FindCrtc | kernel-open/nvidia-drm/nvidia-drm-drv.c:928-935 | the first CRTC whose head is in the mask |
| Permissions.HeadBitHas | kernel-open/nvidia-drm/nvidia-drm-drv.c:819-834 | the bit is that of the head of the CRTC in the connector's atomic state, or else of the CRTC of its detected encoder |
| Permissions.GetCrtcMask | kernel-open/nvidia-drm/nvidia-drm-encoder.c:93-107 | bit i of the result is set if and only if the CRTC with index i has its head in the head mask, and no other bit is set |
| Permissions.Device.RevokeConnector | kernel-open/nvidia-drm/nvidia-drm-connector.c:488-505 | connector and paired CRTC lose their file, also if NVKMS fails; fails exactly if NVKMS was asked and failed |
| Permissions.Device.RevokeConnectorsOf | kernel-open/nvidia-drm/nvidia-drm-drv.c:1002-1012 | takes the permission from exactly the connectors of the file (and display) and the CRTCs they point to; fails exactly if NVKMS refuses one that it is asked about |
| Permissions.Device.RevokePermission | kernel-open/nvidia-drm/nvidia-drm-drv.c:978-1030 | takes away exactly what the file holds, on one display or on all, on any reachable device, and leaves all else; keeps the matching where there is one; with display 0 no trace of the file is left; fails exactly if NVKMS refuses one that it is asked about |
| Permissions.Device.FinishRevokingObjects | kernel-open/nvidia-drm/nvidia-drm-drv.c:1149-1194 | takes the permissions from exactly the leased connectors, the CRTCs they point to and the leased CRTCs, on any reachable device; a matching is kept exactly if the lease respects it |
| Permissions.Device.GrantPermission | kernel-open/nvidia-drm/nvidia-drm-drv.c:836-959 | succeeds if and only if NVKMS agrees and the first connector with the display is visible and not granted and some CRTC is eligible; then that connector is paired with an eligible CRTC, and otherwise nothing changes; keeps the matching where there is one |
| Permissions.MatchedStep | kernel-open/nvidia-drm/nvidia-drm-connector.c:195-214 | every step keeps the matching, detection that finds a display or finds none and revokes included, as long as leases respect the pairs |
| Masks.TestBit | kernel-open/common/inc/nvmisc.h:58 | a mask and a single bit have something in common exactly if the mask has the bit |
| Firmware.ScanRoundTrip | nouveau/extract-firmware-nouveau.py:74-113 | a file whose header lines announce the array correctly, in any order and with other lines between them, gives back the array, decompressed if it is compressed, whatever comes before and after it and however its bytes are laid out in rows |
| Firmware.ScanFile | nouveau/extract-firmware-nouveau.py:74-113 | the result of the scan depends only on what the header lines say, on what earlier lines say where the header is silent, and on the bytes printed |
| Firmware.GeneratedFiles | src/nvidia/generated/g_bindata_ksec2GetBinArchiveSecurescrubUcode_AD10X.c:1111-1119 | the layout of the generated files, with its comment, brace and rows, is an instance for compressed and uncompressed arrays |
| Firmware.HeaderMeaning | nouveau/extract-firmware-nouveau.py:74-87 | header lines printed in any order, with silent lines between them, are read as what they say |
| Firmware.UnboundIff | nouveau/extract-firmware-nouveau.py:99-113 | the scan fails on an unset variable if and only if the array is declared and has data, and its checks read a variable that no line up to the declaration set |
| Firmware.WrongSizeReport | nouveau/extract-firmware-nouveau.py:110-112 | in a generated file an uncompressed array of the wrong size is reported as such if and only if an earlier line gives a compressed size; otherwise the report itself fails |
| Firmware.WrongSizeIsUnbound | nouveau/extract-firmware-nouveau.py:112 | a file that announces two bytes and holds one fails on an unset variable |
| Firmware.GetBytes | nouveau/extract-firmware-nouveau.py:74-113 | the two loops compute the specified extraction, with its errors |
| Firmware.ExtractIff | nouveau/extract-firmware-nouveau.py:88-113 | an array is accepted if and only if it is declared and has data, its size is the one announced and, if it is compressed, so is its compressed size and it decompresses behind the fixed gzip header; an undeclared and an empty array are errors of their own |
| Firmware.WrongPackedSize | nouveau/extract-firmware-nouveau.py:102-108 | a generated file whose compressed array has another compressed size, or decompresses to another size, than announced is refused for its size |
| Firmware.DataRoundTrip | nouveau/extract-firmware-nouveau.py:91-97 | the data lines of a printed array give its bytes, with any text around each of them in which no token starts and which does not hold the closing brace with its semicolon, and the scan stops at that or at the end of the file |
| Firmware.RowRoundTrip | nouveau/extract-firmware-nouveau.py:95 | the tokens found in a printed row are its bytes, and the row does not end the array |
| Firmware.TokenText | nouveau/extract-firmware-nouveau.py:95 | a token is 0x followed by two lower-case hexadecimal digits, and its value prints as itself |
| Firmware.SizeLineMeta | nouveau/extract-firmware-nouveau.py:80-82 | a printed size line sets the data size to that number and nothing else |
| Firmware.RoundUpIsLeast | nouveau/extract-firmware-nouveau.py:38-39 | the result is the least multiple of the base not below the argument |
| Firmware.BootloaderRoundTrip | nouveau/extract-firmware-nouveau.py:116-146 | written unless the rounded size needs more than 32 bits; following the stored offsets gives both arrays back; the total size is the least multiple of 256 covering the file |
| Firmware.BootloaderBytes | nouveau/extract-firmware-nouveau.py:137-146 | the file begins with the bytes de 10 00 00 01 00 00 00; the words after them, lowest byte first, are the least multiple of 256 covering the file, 24, the offset and the size of the image; then come descriptor and image |
| Firmware.BooterRoundTrip | nouveau/extract-firmware-nouveau.py:149-216 | following only stored offsets gives back image, signatures, patch location, metadata, signature count and descriptor if and only if the descriptor has 36 bytes |
| Firmware.BinBytes | nouveau/extract-firmware-nouveau.py:177-180 | the first header of a booter file, byte by byte, with the least multiple of 256 covering an image with a 36-byte descriptor |
| Firmware.HsBytes | nouveau/extract-firmware-nouveau.py:182-190 | the nine words of the second header, lowest byte first, at their offsets |
| Firmware.BooterBytes | nouveau/extract-firmware-nouveau.py:192-216 | behind the headers: signatures, patch location, four zero bytes, metadata, number of signatures, descriptor and image |
| Firmware.BooterAccepts | nouveau/extract-firmware-nouveau.py:161-206 | the writer succeeds if and only if there is a whole number of signatures and at least one, the patch arrays have 4 and 12 bytes, and the rounded size fits 32 bits |
| Firmware.BooterTotal | nouveau/extract-firmware-nouveau.py:178-180 | the stored total size covers the file if and only if the descriptor is not longer than 36 bytes and what the rounding adds; it is the least multiple of 256 that does if and only if the descriptor is not so short either that a smaller one would do |
| Firmware.WriteBooter | nouveau/extract-firmware-nouveau.py:161-216 | the sequence of writes gives the specified file; if one fails, what was written is not a readable image |
| Firmware.WordsRoundTrip | nouveau/extract-firmware-nouveau.py:198-206 | packing words little-endian and unpacking them gives them back |
| Firmware.PackedBytes | nouveau/extract-firmware-nouveau.py:198-206 | byte i of a packed word is its i-th digit to base 256, the lowest first |
| Firmware.BytesRoundTrip | nouveau/extract-firmware-nouveau.py:198-206 | unpacking bytes and packing them again gives them back |

## Left out

- Linux, DRM, RM and `nvKms` calls are not modelled: locks, semaphores, completions, `del_timer_sync` and kernel timers have the contracts their callers rely on, and results of `nvKms` calls are parameters or free choices.
- nvidia-uvm, nvidia-peermem, GEM objects, framebuffers, format tables and display-mode conversion: plumbing or copying of fields.
- Plane fields that carry no change flag (rotation, blending, HDR metadata, sync points) appear only as a check that may fail; the CRTC reset path is left out.
- Memory allocation failures other than those named in the tables end an operation before it changes anything and are not modelled.
- Progress results say that a step is possible and that finitely many are left; that the scheduler takes it is not modelled. Items that wait for nvkms_lock while the queue is flushed under it are not modelled either.
- FlipQueue.OrderIff: a failing commit to the hardware is left out, after which the driver promises no order.
- FlipQueue.NvCrtc.AtomicCommit: is the sequential code of one CRTC without the blocking wait; the wait, the interleavings and the other CRTCs are in the state machine. A commit over several CRTCs is modelled as independent commits, which allows more interleavings than the code.
- KthreadQueue.WorkQueue.MainLoop: scheduling calls do not overlap with each other or with a dequeue, and stop is not called meanwhile; the interleavings are in the state machine. Thread creation on a node and its retries are left out.
- NvkmsTimers.UnloadDrain: the queue is a list here, and its emptiness at the last step is derived in `UnloadStop.dfy`. The power management lock is left out.
- TimerObject.NvkmsModule.Drain: a timer that fires is queued when the loop gets to it, and the queue's thread does not run meanwhile; all other interleavings are in the state machine.
- PerOpenClose.CloseSafety: that core NVKMS schedules no event for an open after nvKmsClose is an assumption of the model, as it is of the code; the queue is not stopped meanwhile.
- LayerConfig.DeltaRefinesFull: the display engine is taken to copy, per layer, either the flagged groups or all of them; the engine itself is not part of this model.
- Permissions: the lock of the modeset state is taken to succeed, object lookups are a set of visible identifiers, connectors are not destroyed, and what NVKMS itself records about permissions is left out.
- Firmware.GetBytes: gzip decompression (RFC 1952) is a parameter; digits are ASCII digits; `main`, file names, and the scrubber's array names are left out (its layout is that of the booter, nouveau/extract-firmware-nouveau.py lines 219-287).
