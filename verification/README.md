# Marlin device HALs, modelled and proved

A Dafny 4.11 model of the stateful logic of the marlin and sailfish device code: the camera HAL's
deferred-work scheduler, API mailbox, batched video, preview copy, callback notifier, autofocus,
advanced capture and face mapping; the USB Type-C role switch; the power HAL's performance modes,
interaction boosts, active-hint list and metadata parser; and the battery's cycle-count backup.

`dafny verify dfyconfig.toml` checks everything. Each component has a module that models the code in
its own form (classes with the source's fields, arrays and linked nodes, loops) and proves every
method against a function on values, and where runs matter a second module in which a run is any
sequence of events, a disabled event changing nothing, and the guarantees are lemmas about all runs.

| component | files |
|---|---|
| deferred work | `DeferredWork.dfy`, `DeferredRuns.dfy`, `DeferredWrap.dfy` |
| API mailbox | `ApiMailbox.dfy`, `MailboxRuns.dfy` |
| USB role switch | `UsbProtocol.dfy`, `UsbSwitch.dfy`, `UsbAnswer.dfy`, `UsbDeadlock.dfy`, `UsbCallback.dfy`, `UsbUevent.dfy` |
| batched video | `VideoBatch.dfy`, `VideoRuns.dfy` |
| preview copy | `PreviewCopy.dfy` |
| callback notifier | `CbNotifier.dfy`, `NotifierRuns.dfy`, `NotifierEffects.dfy`, `NotifierGuarantees.dfy` |
| power | `PerfLock.dfy`, `PowerModes.dfy`, `PowerRuns.dfy`, `PowerSettings.dfy`, `BoostWindow.dfy`, `HintList.dfy`, `HintRuns.dfy`, `Metadata.dfy` |
| focus, capture, faces | `AutoFocus.dfy`, `AdvancedCapture.dfy`, `FaceMap.dfy` |
| battery | `CycleCounts.dfy`, `CycleRuns.dfy`, `Health.dfy`, `Decimal.dfy` |
| shared | `Sequences.dfy`, `Arithmetic.dfy` |

## What the code does not promise

The model follows the code where it falls short of what one would expect, and says exactly when:

- A failed job keeps its slot for ever and its status sticks to later jobs; after 25 failures the
  scheduler accepts nothing. A command lost for want of memory is not noticed: from then on the
  latest job waits until a later one's command takes it out. Job ids are distinct throughout if and
  only if no id comes round to a job while an earlier one with it is unrecorded or failed, which is
  certain only until the 32-bit counter wraps; waits then return the right status, wrap or no wrap.
- A waiter for an API result waits for ever if and only if a result was lost for want of memory.
- A time-out in switchMode can win over a partner-add event that arrived before it.
- One worker per callback, told to stop before it is joined, is guaranteed because the service has
  one thread for its calls (`usb/service.cpp` line 38), not by the locks of setCallback: two
  overlapping calls, which this service cannot make, could stop the wrong worker or join one that
  nothing stops. For overlapping calls the guarantees hold exactly when no worker was created
  between another call's unlock and pthread_kill, and the stop flag was not reset during a join.
- The comment on the layout of a batch handle does not match the code, which puts the six fields a
  batch size apart; the model follows the code.
- A full video slot that was neither sent nor queued is never free again and keeps its buffers. One
  that was queued although the caller was told it failed, its command being lost, can still be
  delivered: its last buffer is then given back twice, and can be with the driver and the consumer
  at once. No buffer ever is in two places exactly when no such command was lost.
- A callback whose command could not be queued stays in the notifier's queue although the poster was
  told it failed; its data is then released twice, and exactly then. START and STOP sent back to
  back run in reverse.
- Leaving one performance mode while the other is on loses a lock if the acquire fails and the other
  mode was switched on later. Sustained mode has no bus floor exactly when it is left over from VR
  mode going off; CPU and GPU caps depend on the flags alone.
- A boost hint can move the deadline back, by less than a microsecond, and only when the nanosecond
  field of the clock went down.
- In the continuous focus modes more than one focus message can follow one call, even a cancelled one.
- Advanced capture configures and unconfigures features in different orders, so with two features
  enabled the settings of the first can stay changed.
- If the cycle-count file cannot be read at boot, a gauge with anything to save overwrites it. Until
  the next boot a write to it that failed is made up for only when some bin grows beyond what was
  to be written.

## Model

| member | source | states |
|---|---|---|
| DeferredWork.JobTable.QueueDeferredWork | camera/QCamera2/HAL/QCamera2HWI.cpp:9840-9869 | Takes the first free slot, queues the job and returns its id, the 32-bit counter skipping 0; with no free slot, no memory or a refused command it returns 0 and changes nothing |
| DeferredWork.JobTable.DequeueDeferredWork | camera/QCamera2/HAL/QCamera2HWI.cpp:10023-10043 | Success frees the slot of the job, failure keeps it with the error code; an unknown id changes nothing and is reported |
| DeferredWork.JobTable.GetDefJobStatus | camera/QCamera2/HAL/QCamera2HWI.cpp:10057-10070 | The status in the first slot with that id, NO_ERROR when there is none |
| DeferredWork.JobTable.CheckDeferredWork | camera/QCamera2/HAL/QCamera2HWI.cpp:10085-10093 | True exactly when the id has a slot without a status |
| DeferredRuns.ProducerStepsClaimASlot | camera/QCamera2/HAL/QCamera2HWI.cpp:9840-9869 | The three steps of a producer, with any sequence of worker steps between them and whether or not its command is sent, amount to one call of the table method |
| DeferredRuns.RunKeeps | camera/QCamera2/HAL/QCamera2HWI.cpp:9476-9826 | Until the id wraps, every interleaving of producers, worker steps and recordings keeps table, counters, queue and statuses consistent |
| DeferredRuns.UnfinishedSlotsMatchJobs | camera/QCamera2/HAL/QCamera2HWI.cpp:9840-9869 | Until the id wraps: live ids are distinct, and unfinished slots match queued-or-running jobs one to one |
| DeferredRuns.WaitReturnsRecordedStatus | camera/QCamera2/HAL/QCamera2HWI.cpp:10085-10120 | A wait on an issued id returns only after that job was recorded, then at once, and with exactly the recorded status |
| DeferredRuns.WaitingJobsAreLostCommands | camera/QCamera2/HAL/QCamera2HWI.cpp:9857-9866 | The queue is always longer than the commands for it by the commands lost for want of memory; with worker and producers at rest, a wait hangs exactly on the latest jobs, as many as commands were lost |
| DeferredRuns.JobsRunInOrder | camera/QCamera2/HAL/QCamera2HWI.cpp:9511-9516 | A job runs only after every job issued before it has been recorded |
| DeferredRuns.RecordedStatusIsLatestReport | camera/QCamera2/HAL/QCamera2HWI.cpp:9481 | The status recorded for a job is that of the latest job so far that reported a failure or was generic, because the worker does not reset it |
| DeferredRuns.RecordedStatusIs | camera/QCamera2/HAL/QCamera2HWI.cpp:9518-9814 | In every run a recorded status is the code the job assigned if it was generic or that code an error, else the status recorded before it, 0 for the first; and that code is the one executing the job gave, unless it was one of the four commands that look at an earlier job and that one had failed |
| DeferredRuns.FailureSticks | camera/QCamera2/HAL/QCamera2HWI.cpp:9481 | Hence after one failure every job is recorded as failed until a generic one runs |
| DeferredRuns.DependencyFailurePropagates | camera/QCamera2/HAL/QCamera2HWI.cpp:10057-10070 | A job that asks for the status of a failed job is recorded with that same status |
| DeferredRuns.HistoryGrows | camera/QCamera2/HAL/QCamera2HWI.cpp:10023-10043 | What was recorded stays recorded, and the number of failed jobs never decreases |
| DeferredRuns.SlotAccounting | camera/QCamera2/HAL/QCamera2HWI.cpp:10023-10043 | Free, unfinished and failed slots are always 25 together, the failed ones as many as recorded failures; a job is refused exactly when none is free |
| DeferredRuns.FailuresExhaustTheTable | camera/QCamera2/HAL/QCamera2HWI.cpp:9840-9869 | After 25 failures no job is ever accepted again |
| DeferredRuns.WrapBreaksDistinctIds | camera/QCamera2/HAL/QCamera2HWI.cpp:9852-9856 | A run of 2^32 jobs after which two slots share an id and a wait on the new job returns the old one's status |
| DeferredWrap.DistinctIffNeverReused | camera/QCamera2/HAL/QCamera2HWI.cpp:9852-9867 | With or without a wrap: live ids are distinct at every moment of a run if and only if no two jobs have numbers congruent modulo 2^32 - 1 of which the earlier was unrecorded or failed when the later got its slot |
| DeferredWrap.UnboundedMatches | camera/QCamera2/HAL/QCamera2HWI.cpp:9840-9869 | Until then the scheduler goes hand in hand with one whose ids are the unbounded job numbers |
| DeferredWrap.NoneReusedBeforeWrap | camera/QCamera2/HAL/QCamera2HWI.cpp:9852-9856 | Until the counter wraps no id is reused |
| DeferredWrap.WaitReturnsLatestStatus | camera/QCamera2/HAL/QCamera2HWI.cpp:10085-10120 | However many jobs were issued: without a reuse, a wait on the id of a job that no later job shares returns only after that job was recorded, then at once, and with its status |
| ApiMailbox.Mailbox.Post | camera/QCamera2/HAL/QCamera2HWI.cpp:6640-6660 | Appends the result to the linked list, which stays acyclic; without memory for a node the result is lost |
| ApiMailbox.Mailbox.Take | camera/QCamera2/HAL/QCamera2HWI.cpp:6590-6609 | Removes exactly the first result for the API and keeps the order of the rest; finds one if and only if there is one |
| ApiMailbox.Mailbox.Unlink | camera/QCamera2/HAL/QCamera2HWI.cpp:6596-6601 | Unlinking a node at the head or behind another drops that node and no other |
| MailboxRuns.ForWithout | camera/QCamera2/HAL/QCamera2HWI.cpp:6590-6609 | Taking the first result for one API takes the head of that API's results and leaves every other API's alone |
| MailboxRuns.WaitersAreAccountedFor | camera/QCamera2/HAL/QCamera2HWI.cpp:6583-6613 | In every run, waiters per API equal outstanding requests plus unclaimed and lost results, unclaimed results never exceed notified waiters, and claims follow posting order |
| MailboxRuns.UnclaimedResultHasNotifiedWaiter | camera/QCamera2/HAL/QCamera2HWI.cpp:6583-6613 | No wakeup is lost: while a result is unclaimed some waiter for that API has been notified, and finds a result when it runs |
| MailboxRuns.StuckWaitersAreLostResults | camera/QCamera2/HAL/QCamera2HWI.cpp:6640-6660 | Once nothing is left to happen, as many threads wait for ever as results were lost for want of memory |
| UsbProtocol.LocksExcludeEachOther | usb/Usb.cpp:134-246 | In every run each of the three mutexes is held by exactly the thread between its lock and unlock calls |
| UsbSwitch.RoleSwitchIsUndisturbed | usb/Usb.cpp:204-243 | Between lock and unlock of the role-switch mutex no other thread writes a role or calls switchToDrp |
| UsbSwitch.SwitchModeReturnIsJustified | usb/Usb.cpp:147-187 | switchMode returns true only if a partner-add event followed this call's write of the role, and false only right after calling switchToDrp, which writes "dual" if its node can be written |
| UsbAnswer.ClientIsToldTheResult | usb/Usb.cpp:205-243 | In every run a notification to the client comes from one call: after a port-type switch it carries what switchMode returned in it, which is the last thing before; after a data or power role switch it says success if and only if the role was written and read back as requested |
| UsbAnswer.AnsweredIffCallback | usb/Usb.cpp:232-243 | A call that holds the callback lock tells the client its result if and only if a callback is set |
| UsbAnswer.EndedIsAnswered | usb/Usb.cpp:193-246 | A call that lets go of the role-switch lock did one of the listed sequences of writes and returns, and was answered at most once, after them |
| UsbSwitch.WakeUpOutcome | usb/Usb.cpp:161-176 | The wait ends with success exactly when it did not time out and a partner-add event came after the write, and with failure exactly on a time-out; otherwise it is repeated |
| UsbSwitch.NoLostWakeup | usb/Usb.cpp:502-507 | In every run, if a partner-add event was processed since a waiting thread wrote the role, that thread has been signalled |
| UsbSwitch.WorkerResets | usb/Usb.cpp:543-557 | In every run a worker that got the role-switch lock calls switchToDrp for each port it finds without a partner, keeps the lock as long as there are more, and then lets go of it |
| UsbSwitch.TimeOutLosesPartner | usb/Usb.cpp:166-176 | A run in which the partner was added in time and the late time-out still makes switchMode call switchToDrp and return false |
| UsbDeadlock.LockOrder | usb/Usb.cpp:204-243 | Role-switch lock before partner or callback lock, never the other way; the worker never blocks on the role-switch lock |
| UsbDeadlock.NoWaitCycle | usb/Usb.cpp:487-563 | No reachable state has a cycle of threads waiting for mutexes or joins, and no chain of waits is longer than two |
| UsbDeadlock.SomeoneCanStep | usb/Usb.cpp:634-688 | Every thread in a call, and every worker not exited, can step or waits through at most one other thread for one that can |
| UsbCallback.OneWorkerIffNeverReplaced | usb/Usb.cpp:634-688 | With no stop or join under way, exactly the current worker is created and unjoined when a callback is set, and none otherwise, if and only if no worker was created between another call's unlock and its pthread_kill |
| UsbCallback.JoinedWorkerToldToStop | usb/Usb.cpp:665-675 | Every worker a call waits to join has been told to stop at every moment of a run, if and only if the stop flag was never reset while a call waited to join |
| UsbCallback.IdleLeavesIffTold | usb/Usb.cpp:599-616 | In every run an idle worker, epoll not failing, leaves its loop if and only if it has been told to stop |
| UsbCallback.ToldWorkerIsJoined | usb/Usb.cpp:665-671 | In every run in which a call waits to join an idle worker told to stop, one step of each ends the call with the worker joined |
| UsbCallback.StopEnds | usb/Usb.cpp:665-671 | Wherever the worker is when it is told, with no mutex held by another thread at most five steps of its own and one of the call complete the stop |
| UsbCallback.SerialCallsKeepOneWorker | usb/service.cpp:38 | With one service thread, so that calls of setCallback do not overlap: at most one worker is created and unjoined, outside a stop or join exactly the current one if a callback is set and none otherwise, and every joined worker has been told to stop |
| UsbCallback.OverlapStopsNewWorker | usb/Usb.cpp:665-671 | What the single service thread is needed for: two overlapping setCallback calls could stop the new worker and never join the old one |
| UsbCallback.OverlapRevivesOldWorker | usb/Usb.cpp:674-675 | Likewise: resetting the stop flag in a second call could leave the first joining a worker nothing tells to stop |
| UsbUevent.UeventEvent | usb/Usb.cpp:487-563 | What an event makes the worker do: nothing for an empty or overlong one, else the actions of its strings; the scan never leaves the buffer |
| UsbUevent.StringAt | usb/Usb.cpp:561 | Moving past the next NUL stays inside the buffer because of the terminators written at its end |
| UsbUevent.ActionsAre | usb/Usb.cpp:501-562 | A partner is added once for every matching string before the first port change, then the ports are looked at once, and nothing after it counts |
| UsbUevent.PartnerStrings | usb/Usb.cpp:502 | The strings that count as a partner are "add", anything within a line, and "-partner" |
| UsbUevent.TypecStrings | usb/Usb.cpp:508 | Those that count as a port change begin with "DEVTYPE=typec_" |
| VideoBatch.VideoStream.VideoFrame | camera/QCamera2/HAL/QCamera2HWICallbacks.cpp:1441-1506 | One frame in batch mode: dropped without a free slot, else stored in the current slot and handle, the slot full after batch-size frames |
| VideoBatch.VideoStream.FillWords | camera/QCamera2/HAL/QCamera2HWICallbacks.cpp:1490-1495 | The frame's six words go batch-size apart into the native handle; the offset and time stamp are relative to the first frame |
| VideoBatch.VideoStream.Open | camera/QCamera2/HAL/QCamera2HWICallbacks.cpp:1446-1458 | The first slot the consumer does not own is opened with its count reset, if there is one |
| VideoBatch.VideoStream.BufDone | camera/QCamera2/HAL/QCameraStream.cpp:1234-1246 | Returning a slot with buffers gives all of them back and frees the slot; any other index is a plain buffer |
| VideoRuns.FramesInOrder | camera/QCamera2/HAL/QCamera2HWICallbacks.cpp:1469-1505 | In every run each accepted frame is at exactly one position of one slot, in order; full slots hold exactly a batch and at most one slot is partly filled |
| VideoRuns.FullSlotWords | camera/QCamera2/HAL/QCamera2HWICallbacks.cpp:1490-1495 | All words of a delivered handle are set: word k is field k / n of the slot's frame k % n |
| VideoRuns.HandleContents | camera/QCamera2/HAL/QCamera2HWICallbacks.cpp:1490-1501 | The handle of every full slot, word by word: the file descriptors of its frames, then offsets 0, sizes, usage flags, times since the first frame, formats; delivered with the time of the first frame |
| VideoRuns.WordPosition | camera/QCamera2/HAL/QCamera2HWICallbacks.cpp:1490-1495 | Field f of frame j has the word f * n + j and no other: the index map is a bijection |
| VideoRuns.BuffersConserved | camera/QCamera2/HAL/QCamera2HWICallbacks.cpp:1441-1506 | In every run the books balance: what the driver has, what it refused and what slots hold are the buffers at the start plus those given back early with a lost command; none is out of sight and the driver has none twice |
| VideoRuns.DroppedIffNoFreeSlot | camera/QCamera2/HAL/QCamera2HWICallbacks.cpp:1447-1466 | A frame is dropped, changing nothing, exactly when it would start a batch and no slot is free |
| VideoRuns.StrandedForEver | camera/QCamera2/HAL/QCamera2HWICallbacks.cpp:1560-1575 | A full slot that was not sent, or whose notification failed before it was queued, never becomes free again |
| VideoRuns.AllBuffersBackIffNoneLost | camera/QCamera2/HAL/QCameraStream.cpp:1234-1246 | With every slot free or stranded the driver has all buffers back if no hand-over was one that keeps some (unsent, or failed before it was queued with more than one buffer), and only if, unless a command was lost |
| VideoRuns.ApartIffNoCommandLost | camera/QCamera2/HAL/QCamera2HWICallbacks.cpp:1569-1574 | At every moment of a run each buffer is with the driver or in one slot and nowhere else, if and only if no hand-over failed with its slot already queued |
| VideoRuns.ReturnedTwice | camera/QCamera2/stack/mm-camera-interface/src/mm_camera_stream.c:4693-4701 | A run in which a buffer is given back with the failed notification and again with its slot, the second time refused by its reference count |
| VideoRuns.GivenBackWhileRead | camera/QCamera2/HAL/QCameraStream.cpp:1234-1246 | A run in which the slot of a lost command gives a buffer to the driver while the consumer has it in another slot |
| VideoRuns.GiveBackFrees | camera/QCamera2/HAL/QCameraStream.cpp:1234-1246 | In every run a slot of the consumer, or one still queued for it, can be given back, after which it is free and its own buffers, no others, are with the driver again |
| VideoRuns.HandoversDoNotDecide | camera/QCamera2/HAL/QCameraStream.cpp:1234-1246 | Two runs with the same hand-overs, one of them with a lost command, of which one ends with the buffer back and the other without |
| VideoRuns.UnsentFrameIsLost | camera/QCamera2/HAL/QCamera2HWICallbacks.cpp:1560-1575 | A run whose only buffer is never given back: a full batch of one that is not sent |
| PreviewCopy.CopyPlanes | camera/QCamera2/HAL/QCamera2HWICallbacks.cpp:1039-1059 | The two row loops, over arrays, leave the destination equal to the packed image |
| PreviewCopy.Memcpy | camera/QCamera2/HAL/QCamera2HWICallbacks.cpp:1043-1045 | Copies the range and leaves the rest of the destination alone |
| PreviewCopy.LumaByte | camera/QCamera2/HAL/QCamera2HWICallbacks.cpp:1039-1046 | The packed image holds byte (i, j) of the strided luma plane at i * w + j |
| PreviewCopy.ChromaByte | camera/QCamera2/HAL/QCamera2HWICallbacks.cpp:1048-1058 | And byte (i, j) of the chroma plane after w * h bytes |
| PreviewCopy.WrittenOnce | camera/QCamera2/HAL/QCamera2HWICallbacks.cpp:1039-1058 | Byte k is written by row copy k / w and by no other |
| PreviewCopy.CoveredIsReadable | camera/QCamera2/HAL/QCamera2HWICallbacks.cpp:1039-1058 | When strides and scanlines cover the image every row read lies inside the frame |
| PreviewCopy.SameSizeIffUnpadded | camera/QCamera2/HAL/QCamera2HWICallbacks.cpp:1010-1022 | The two computed sizes are equal exactly when neither plane has padding |
| PreviewCopy.SharedIsPacked | camera/QCamera2/HAL/QCamera2HWICallbacks.cpp:1022-1030 | With equal sizes the shared memory already is what the copy would produce |
| PreviewCopy.PreviewData | camera/QCamera2/HAL/QCamera2HWICallbacks.cpp:984-1084 | What the application sees through either path is the packed image; the path is chosen by the sizes; YV12 is always shared; a format not supported gets an unfilled buffer; no memory is reported |
| CbNotifier.Notifier.Round | camera/QCamera2/HAL/QCamera2HWICallbacks.cpp:3188-3353 | One round of the notifier thread: what each command does to queue, snapshot state and callbacks |
| CbNotifier.Notifier.NextJob | camera/QCamera2/HAL/QCamera2HWICallbacks.cpp:3210-3342 | One job: the calls made for the oldest entry, by kind, enabled message and callbacks set |
| CbNotifier.Notifier.NextSnapshot | camera/QCamera2/HAL/QCamera2HWICallbacks.cpp:3275-3317 | A snapshot entry is counted, raises snapshot-done when the count is reached, and is handed to the muxer or delivered and released; while snapshots are off nothing is done |
| CbNotifier.Notifier.FlushNodes | camera/QCamera2/util/QCameraQueue.cpp:385-418 | Exactly the matching entries leave, each released once in order; the rest keep their order |
| CbNotifier.Notifier.Enqueue | camera/QCamera2/HAL/QCamera2HWICallbacks.cpp:3371-3393 | An entry joins the tail when the notifier and the queue are active and there is memory |
| CbNotifier.Notifier.SendCmd | camera/QCamera2/util/QCameraCmdThread.cpp:139-168 | A command with priority goes to the head of the queue, another to the tail |
| NotifierRuns.JobCounts | camera/QCamera2/HAL/QCamera2HWICallbacks.cpp:3210-3342 | How often one job delivers, hands over and releases each entry and raises snapshot-done |
| NotifierRuns.FlushReleases | camera/QCamera2/HAL/QCamera2HWICallbacks.cpp:3062-3071 | A flush releases each entry it takes out exactly once, when it carries a release function |
| NotifierRuns.KeptMembers | camera/QCamera2/util/QCameraQueue.cpp:385-418 | A flush keeps exactly the entries that do not match |
| NotifierEffects.PreviewFlush | camera/QCamera2/HAL/QCamera2HWICallbacks.cpp:3107-3124 | In every run a preview flush takes out exactly the data callbacks for preview frames, releases each once with the status of a flush, and makes no other call |
| NotifierEffects.VideoFlush | camera/QCamera2/HAL/QCamera2HWICallbacks.cpp:3138-3152 | A video flush does so with exactly the timestamp callbacks for video frames |
| NotifierEffects.StopFlush | camera/QCamera2/HAL/QCamera2HWICallbacks.cpp:3198-3206 | A round that runs STOP with exactly the snapshots |
| NotifierEffects.ExitFlush | camera/QCamera2/HAL/QCamera2HWICallbacks.cpp:3344-3348 | A round that runs EXIT with all entries, and ends the thread and the queue |
| NotifierEffects.JobCallsAre | camera/QCamera2/HAL/QCamera2HWICallbacks.cpp:3210-3342 | The calls of one job are about its entry, the release last, with the status for a disabled message, an unknown kind or success |
| NotifierEffects.NeverUsedAfterRelease | camera/QCamera2/HAL/QCamera2HWICallbacks.cpp:3210-3342 | In every run no data is passed to the application or the muxer after the notifier released it |
| NotifierGuarantees.EveryEntryAccountedFor | camera/QCamera2/HAL/QCamera2HWICallbacks.cpp:3164-3393 | Every posted entry is pending without a call, or has left: delivered at most once, and released exactly once unless it is a snapshot that was handed over or dropped |
| NotifierGuarantees.ReleasedOnceIffCommandSent | camera/QCamera2/HAL/QCamera2HWICallbacks.cpp:1093-1101 | Data of an entry that left is released or handed over once by the notifier, unless a dropped snapshot, and once more by its poster exactly when the command found no memory; so data not of a snapshot is given up once if and only if the command could be sent |
| NotifierGuarantees.ReleasedTwice | camera/QCamera2/HAL/QCamera2HWICallbacks.cpp:3386-3387 | A run in which a frame is released by its poster and then delivered and released by the notifier |
| NotifierGuarantees.QueueInPostingOrder | camera/QCamera2/HAL/QCamera2HWICallbacks.cpp:3371-3393 | The queue holds posted entries in posting order |
| NotifierGuarantees.NothingForgotten | camera/QCamera2/HAL/QCamera2HWICallbacks.cpp:3386-3387 | Entries never outnumber job commands queued, being sent or lost, so none pends without a command |
| NotifierGuarantees.SnapshotDoneOnce | camera/QCamera2/HAL/QCamera2HWICallbacks.cpp:3191-3290 | Since the last START or STOP, snapshot-done was raised once the expected number was taken and not before; a second time exactly when the 32-bit counter has come round; never with longshot on |
| NotifierGuarantees.DeliveredInPostingOrder | camera/QCamera2/HAL/QCamera2HWICallbacks.cpp:3210-3342 | Callbacks reach the application in the order posted |
| NotifierGuarantees.StopBeforeStart | camera/QCamera2/HAL/QCamera2HWICallbacks.cpp:3506-3523 | START then STOP sent back to back are run in reverse and leave snapshots on; with a round in between they leave them off |
| PowerModes.PowerHal.SustainedHint | power/power-helper.c:171-232 | The sustained-performance hint: which lock is released and acquired for each pair of flags, an ON hint while on taking the OFF branch |
| PowerModes.PowerHal.VrHint | power/power-helper.c:238-302 | The VR hint, likewise |
| PowerSettings.SustainedFlag | power/power-helper.c:171-232 | A sustained hint sets its flag if it says on and the flag is off, and clears it otherwise; the VR flag stays; a launch boost ends only when no mode was set and one is switched on |
| PowerSettings.VrFlag | power/power-helper.c:238-302 | A VR hint, likewise |
| PowerModes.PowerHal.LaunchHint | power/power-8996.c:244-277 | The launch hint: ignored under a mode flag, else one boost at a time; handled exactly when a flag was set or the boost went on or off |
| PowerSettings.LaunchFlag | power/power-8996.c:244-277 | The boost is on after a launch hint if it said on and one was on or could be taken; with a mode flag set nothing changes |
| PowerModes.PowerHal.ProcessBoost | power/power-8996.c:136-166 | The boost is acquired with the resources of the governor read; -1 for an unreadable or unsupported one |
| PowerSettings.LaunchRequestSets | power/power-8996.c:139-145 | What the boost asks for, setting by setting: both clusters' caps and floors lifted, and one more setting first on another governor than the scheduler's own |
| PowerSettings.LaunchBoostSets | power/power-8996.c:147-166 | In every run the boost then holds a lock asking for just that, and with an unreadable or unsupported governor or a failing acquire there is no lock and the handle is -1 |
| PerfLock.AcquireGives | power/utils.c:225-241 | What the perf-lock library is taken to promise: the caller's own live handle or one above all given out so far holds the request, nobody else's request changes, and a failure gives -1 |
| PowerRuns.LocksHeld | power/power-helper.c:171-302 | Over every run: locks held are other clients', lost ones, one mode lock exactly while a flag is set and its acquire succeeded, and the launch boost; launch mode excludes both flags |
| PowerRuns.AllGivenBackIffNoneLost | power/power-helper.c:210-302 | With flags and boost off every lock has been given back if and only if none was lost to a failed acquire |
| PowerRuns.LostWhen | power/power-helper.c:212-227 | A lock is lost exactly when one mode is switched off, the acquire for the other fails, and the other was switched on later |
| PowerRuns.HandlesNeverReused | power/utils.c:225-241 | In every run a handle that becomes live was not live at any earlier moment, for us or another client |
| PowerRuns.CapsFollowFlags | power/power-helper.c:171-302 | CPU and GPU caps and the GPU floor of the mode lock are a function of the two flags whatever path led there |
| PowerSettings.ModeLockSets | power/power-helper.c:163-302 | In every run the mode lock asks, opcode by opcode, for what the modes promise: CPUs and GPU locked at 1209 and 315 with both, at 1440 and 510 with VR, capped with sustained mode alone, whose CPU and bus floors depend on how it was entered |
| PowerRuns.BusFloorFollowsSwitch | power/power-helper.c:171-302 | The bus floor is 0 if and only if sustained mode alone is on and the latest mode switch was VR going off, and 7759 otherwise |
| PowerRuns.BusFloorDependsOnPath | power/power-helper.c:288-297 | Two runs that end in sustained mode with different bus floors |
| PowerRuns.FailedAcquireLosesLock | power/power-helper.c:212-227 | A run after which both flags are off and a mode lock stays held |
| PowerRuns.RepeatedOnSwitchesOff | power/power-helper.c:210-211 | An ON hint while the mode is on switches it off |
| BoostWindow.BoostState.Interaction | power/power-helper.c:303-332 | A hint asks for a boost unless the governor is unreadable, a mode is set or the previous boost covers it |
| BoostWindow.CoveredEndsEarlier | power/power-helper.c:327-331 | A suppressed hint ends before the boost covering it; an accepted one moves the deadline back by less than a microsecond, and not at all with clocks whole microseconds apart |
| BoostWindow.CoveredExactly | power/power-helper.c:327-331 | A hint is suppressed if and only if the running boost outlasts it by more than the nanoseconds the truncating division dropped |
| BoostWindow.HintTakesOver | power/power-helper.c:303-333 | A hint without a governor or while a mode is set changes nothing; any other replaces the boost unless that outlasts it |
| BoostWindow.StoredIsLatest | power/power-helper.c:316-333 | With whole-microsecond clocks the stored deadline is the maximum over every hint that reached the check |
| BoostWindow.StoredNearLatest | power/power-helper.c:316-333 | With nanosecond clocks it never exceeds that maximum and falls behind by less than a microsecond per accepted hint |
| BoostWindow.LatestBounds | power/power-helper.c:316-333 | The maximum is at least the deadline of every hint that reached the check |
| BoostWindow.LatestReached | power/power-helper.c:316-333 | And is one of them, or zero |
| BoostWindow.DeadlineCanMoveBack | power/power-helper.c:144-149 | Two hints after which the stored deadline is half a microsecond earlier |
| BoostWindow.MovesBackIff | power/power-helper.c:144-149 | An accepted hint moves the deadline back if and only if it falls short of it by no more than the nanoseconds dropped, so only when the nanosecond field went down |
| BoostWindow.TimespanError | power/power-helper.c:144-149 | The computed span is off by less than a microsecond, and exact for clocks whole microseconds apart |
| BoostWindow.DurationClamped | power/power-helper.c:316-322 | A boost lasts 750 milliseconds more than asked for, but at least 1500 and at most 5750 |
| HintList.ActiveHints.PerformHintAction | power/utils.c:248-300 | Takes a lock and adds a node for an absent hint; on any failure the list is unchanged and the lock is given back if it can be |
| HintList.ActiveHints.RecordHint | power/utils.c:268-295 | A handle just taken is put in front of the list; without memory the list is as before and the handle is given back when the library can |
| HintList.ActiveHints.UndoHintAction | power/utils.c:302-337 | Releases the hint's lock and removes its node; an unknown hint changes nothing |
| HintList.ActiveHints.AddListNode | power/list.c:47-66 | Adds at the front of the linked list, which stays acyclic, whether or not its compare function is set; without memory nothing changes |
| HintList.ActiveHints.RemoveListNode | power/list.c:77-110 | Unlinks exactly the node given, wherever it stands; -1 when it is not in the list |
| HintList.ActiveHints.FindNode | power/list.c:126-145 | The first node with that hint id, null if and only if there is none |
| HintList.Find | power/hint-data.c:32-42 | Hints compare by id: the position of the first hint with that id, or the length when there is none |
| HintRuns.LocksAreListed | power/utils.c:248-337 | In every run ids and handles are distinct and the locks held are exactly the listed ones, besides other clients' and, without a release function, orphans |
| HintRuns.PerformUpdatesLookup | power/utils.c:248-300 | The list refines a map: performing an absent hint adds it, and only when nothing fails |
| HintRuns.UndoUpdatesLookup | power/utils.c:302-337 | Undoing removes that hint and no other |
| HintRuns.UndoRestores | power/utils.c:248-337 | Performing an absent hint and undoing it restores the list and the locks held |
| HintRuns.NoNesting | power/utils.c:254-258 | A hint performed twice is ended by one undo |
| HintRuns.OrphanedLock | power/utils.c:288-296 | Without a release function a lock can be taken and forgotten |
| AutoFocus.Camera.StartFocus | camera/QCamera2/HAL/QCamera2HWI.cpp:3799-3829 | Starting autofocus arms the flag in the adjustable modes, reports focus at once in the others, and disarms on failure |
| AutoFocus.Camera.CancelFocus | camera/QCamera2/HAL/QCamera2HWI.cpp:3842-3863 | Cancelling disarms in the adjustable modes |
| AutoFocus.Camera.ProcessEvent | camera/QCamera2/HAL/QCamera2HWI.cpp:6151-6281 | The messages a sensor event sends and the flag it leaves, by mode; nothing on a secondary camera |
| AutoFocus.OneAnswerPerCall | camera/QCamera2/HAL/QCamera2HWI.cpp:6165-6213 | In auto and macro mode the messages since the last call are its one answer, the first settling event not preceded by a cancel, or none |
| AutoFocus.SilentAfterCancel | camera/QCamera2/HAL/QCamera2HWI.cpp:3842-3863 | After a cancel nothing is sent until the next call |
| AutoFocus.AtMostOneIffNotContinuous | camera/QCamera2/HAL/QCamera2HWI.cpp:6165-6271 | A focus mode promises at most one message between calls if and only if it is not a continuous one |
| AutoFocus.ContinuousSendsTwo | camera/QCamera2/HAL/QCamera2HWI.cpp:6214-6264 | A run in a continuous mode with two messages after one cancelled call |
| AutoFocus.ContinuousTells | camera/QCamera2/HAL/QCamera2HWI.cpp:6214-6264 | In every run in a continuous mode, which messages each sensor state sends and whether they say focused or scanning, with and without a call pending |
| AutoFocus.PendingAfter | camera/QCamera2/HAL/QCamera2HWI.cpp:6275-6280 | After which sensor events a call is still pending; a secondary camera changes nothing |
| AdvancedCapture.Hal.ConfigureAdvancedCapture | camera/QCamera2/HAL/QCamera2HWI.cpp:4007-4073 | The settings made for the first enabled feature; nothing when refused, only the counters on a secondary camera |
| AdvancedCapture.ConfiguringSets | camera/QCamera2/HAL/QCamera2HWI.cpp:4007-4073 | Setting by setting, which picked feature changes it on configuring |
| AdvancedCapture.Hal.UnconfigureAdvancedCapture | camera/QCamera2/HAL/QCamera2HWI.cpp:3943-3994 | What is put back, once, for the feature found in the other order |
| AdvancedCapture.UnconfiguringSets | camera/QCamera2/HAL/QCamera2HWI.cpp:3943-3994 | Setting by setting, which feature, picked in the other order, puts it back |
| AdvancedCapture.Hal.ProcessZSLCaptureDone | camera/QCamera2/HAL/QCamera2HWI.cpp:6318-6327 | Counts a frame and unconfigures at the burst count |
| AdvancedCapture.Hal.ResetFrameCapture | camera/QCamera2/HAL/QCameraParameters.cpp:7623-7671 | Resetting a frame capture turns tone mapping on except for a manual one without flash |
| AdvancedCapture.Hal.ConfigFrameCapture | camera/QCamera2/HAL/QCameraParameters.cpp:7546-7600 | A frame capture for chroma flash turns tone mapping off, unless low light, a manual capture or another mode comes first |
| AdvancedCapture.RestoredOnce | camera/QCamera2/HAL/QCamera2HWI.cpp:6318-6327 | Until the burst is complete only frames are counted; from then on the settings have been put back exactly once |
| AdvancedCapture.RestoredIffSameFeature | camera/QCamera2/HAL/QCamera2HWI.cpp:3943-3994 | After a complete burst every setting is back if and only if configuring and unconfiguring picked the same feature |
| AdvancedCapture.OneFeatureRestored | camera/QCamera2/HAL/QCamera2HWI.cpp:4007-4073 | With at most one feature enabled any burst of at least the burst count restores everything, once |
| AdvancedCapture.StillMoreWithFlash | camera/QCamera2/HAL/QCamera2HWI.cpp:3962-3986 | Still-more with a flash leaves tintless off, and tone mapping too unless the flash mode is on |
| FaceMap.MapFaces | camera/QCamera2/HAL/QCamera2HWI.cpp:8277-8419 | Fills one face per detection, landmarks included and every edge in range for a box inside the preview, and no other; a preview without size is refused |
| FaceMap.RectBounds | camera/QCamera2/HAL/QCamera2HWI.cpp:8363-8383 | A box inside the preview maps to ordered edges in -1000..1000, each far edge at most one below its own mapping |
| FaceMap.FarEdge | camera/QCamera2/HAL/QCamera2HWI.cpp:8371-8383 | The far edge is one low exactly when the two division remainders add up to a full step |
| FaceMap.InRangeExactly | camera/QCamera2/HAL/QCamera2HWI.cpp:54-55 | An edge is in range exactly when it is less than a two-thousandth outside the preview |
| FaceMap.PointInRect | camera/QCamera2/HAL/QCamera2HWI.cpp:8385-8408 | A landmark inside the box maps inside the rectangle or one past its far edge |
| FaceMap.WholePreview | camera/QCamera2/HAL/QCamera2HWI.cpp:8363-8383 | A box over the whole preview maps to the whole range |
| FaceMap.AlongIs | camera/QCamera2/HAL/QCamera2HWI.cpp:54-55 | The mapping of an edge, without a division: which two-thousandth step it falls into, towards zero |
| FaceMap.FaceParts | camera/QCamera2/HAL/QCamera2HWI.cpp:8363-8420 | Each coordinate of a face comes from its own detected one along its own side; without landmarks all are -2000 |
| CycleCounts.CycleCountBackupRestore.Restore | health/CycleCountBackupRestore.cpp:30-35 | Reads both stores, merges and saves |
| CycleCounts.CycleCountBackupRestore.Backup | health/CycleCountBackupRestore.cpp:37-41 | Reads the gauge, merges with the bins in memory and saves |
| CycleCounts.CycleCountBackupRestore.UpdateAndSave | health/CycleCountBackupRestore.cpp:110-127 | Both bin arrays become the pointwise maximum; each store is written exactly when it was behind in some bin |
| CycleCounts.CycleCountBackupRestore.Merge | health/CycleCountBackupRestore.cpp:112-122 | The loop over the arrays computes the maximum and which side was behind |
| CycleCounts.CycleCountBackupRestore.Scan | health/CycleCountBackupRestore.cpp:52-56 | Overwrites the bins converted and leaves the others |
| CycleCounts.TextRoundTrip | health/CycleCountBackupRestore.cpp:61-93 | Eight 32-bit bins printed into the 256-byte buffer read back unchanged, trimmed or not |
| CycleCounts.JoinLength | health/CycleCountBackupRestore.cpp:63-68 | Eight bins take at most 95 characters |
| CycleRuns.MergedToMaximum | health/CycleCountBackupRestore.cpp:30-127 | After every restore and backup both stores hold the pointwise maximum of what they held |
| CycleRuns.NeverDecreases | health/CycleCountBackupRestore.cpp:110-127 | Over growth, gauge resets, reboots and backups persisted bins never decrease |
| CycleRuns.WrittenIffChanged | health/CycleCountBackupRestore.cpp:110-127 | In every run each store is written, once, by exactly those restores and backups that change its bins |
| CycleRuns.WrittenIffGrown | health/CycleCountBackupRestore.cpp:110-127 | Any number of backups write the storage file if and only if some reading of the gauge exceeds, in some bin, the bins in memory at the start, whatever the file holds |
| CycleRuns.FailedWriteNotRetried | health/CycleCountBackupRestore.cpp:61-73 | After a storage write failed the file stays behind the bins in memory, and later backups write it if and only if some bin grows beyond those |
| CycleRuns.UnreadableStorage | health/CycleCountBackupRestore.cpp:43-59 | When the file cannot be read at boot its bins survive if and only if the gauge has nothing to save or as much in every bin |
| Health.Monitor.CycleCountBackup | health/Health.cpp:59-82 | One level report: what is accumulated, and a backup when twenty percent are reached |
| Health.BackupIffTwentyCharged | health/Health.cpp:71-80 | The next backup comes with the first level at which twenty percent have been charged since the last, and not before |
| Health.NoClimbWithoutBackup | health/Health.cpp:71-80 | Without a backup the level never climbs twenty percent above any level since |
| Decimal.ScanPrinted | health/CycleCountBackupRestore.cpp:52-68 | Any printed integer followed by a non-digit reads back, leaving what follows |
| Decimal.AtoiPrinted | power/metadata-parser.c:76 | atoi of a printed integer is that integer |
| Decimal.PrintLength | health/CycleCountBackupRestore.cpp:63-68 | A printed 32-bit integer takes at most 11 characters |
| Metadata.ParseMetadata | power/metadata-parser.c:36-62 | One step: the next piece, split at its first =, each half cut to its buffer |
| Metadata.ParseHintMetadata | power/metadata-parser.c:64-93 | The loop ends, never with an error, and leaves the hint updated by every piece in turn |
| Metadata.SplitIsExact | power/metadata-parser.c:43-44 | The pieces contain no semicolon and put together give the text |
| Metadata.TokensAreNonEmptyPieces | power/metadata-parser.c:43-44 | Repeated strtok_r visits exactly the non-empty pieces, in order |
| Metadata.ParsedIsLastGiven | power/metadata-parser.c:71-87 | Hint id and state come out as the last non-empty value given for each key, and as they were without one |
| Metadata.PrintedHintParses | power/metadata-parser.c:64-93 | Parsing a printed hint gives it back |
| Metadata.NotANumberIsZero | power/metadata-parser.c:83-86 | A value that is not a number counts as 0 |

## Left out

- One camera HAL instance: `sNextJobId` is static while the lock is per instance, and two instances are not modelled.
- Callers of processAPI that do not wait for their result (`camera/QCamera2/HAL/QCamera2HWI.cpp` lines 5164, 5308, 5485, 6051).
- DeferredRuns.WaitingJobsAreLostCommands: a command refused because the worker's queue has been shut down, which posts the semaphore without a command, is not modelled.
- What a deferred job does: opening a camera, allocating buffers and the rest are an arbitrary status.
- UsbProtocol.LocksExcludeEachOther: the USB service's threads are places in a state machine on values, one step per lock operation or visible action, not methods of a class; port status queries and the file reads behind them are not modelled.
- UsbDeadlock.SomeoneCanStep: a worker inside epoll_wait counts as able to step, and the window between its look at the stop flag and epoll_wait, in which a stop signal has no effect before the next event, is not modelled.
- UsbAnswer.ClientIsToldTheResult: a role of no known type makes switchRole return at once, without taking a lock and without an answer (`usb/Usb.cpp` lines 199-202), and is not modelled; a data or power role whose file was written counts as written even when it cannot be read back.
- UsbSwitch.SwitchModeReturnIsJustified: the call of switchToDrp is recorded whether or not it could open and write the node, whose result switchMode ignores.
- The USB client's callback calling back into the service under `mLock`, failing pthread_kill, and errors of epoll and sockets other than the worker ending.
- The second batch form of the video stream, in which the driver's own user buffer lists the frames (`camera/QCamera2/HAL/QCamera2HWICallbacks.cpp` lines 1507-1558).
- VideoBatch.VideoStream.VideoFrame: updateNativeHandle is taken to succeed for a held slot; it returns null only for an index past the allocated buffers or without a handle (`camera/QCamera2/HAL/QCameraMem.cpp` lines 1569-1587), which a stream of at least three buffers that was allocated does not have.
- VideoRuns.BuffersConserved: the reference count of a video buffer is 0 or 1, the stream being neither bundled nor linked to another; a slot sent but dropped by the notifier, by a flush or because the message was turned off meanwhile, is one the consumer never gives back.
- File descriptors, sizes, usage and format of a frame are arbitrary numbers, and the native handle is a sequence, not shared memory.
- Overflow of the 32-bit size and stride products of the preview copy, and of the coordinates and products of the face mapping, where the C code has no defined result.
- CbNotifier.Notifier.Round: the semaphore and the two mutexes of the queues are not modelled; a queue operation is one step.
- NotifierGuarantees.ReleasedOnceIffCommandSent: the poster modelled is one that gives its data back when told of a failure (`camera/QCamera2/HAL/QCamera2HWICallbacks.cpp` lines 1093-1101); some posters ignore the result.
- NotifierGuarantees.StopBeforeStart: the commands START and STOP are taken to be sent; sendCmd finding no memory for them is not modelled.
- Callbacks set more than once, and setJpegCallBacks racing with a round: which callbacks are set is read anew in every round.
- PerfLock.AcquireGives: the library is a contract, present with both entry points; a failing acquire is taken to leave the locks held as they were.
- The video-encode boost handle, camera preview and display hints beyond the list operations they use.
- power_set_interactive: it always returns early because its override reports the hint as handled.
- Failing parameter commits in advanced capture, the display-skip flag, and the remosaic and capture counters of the post-processor.
- FaceMap.MapFaces: face attributes other than id, score, box and landmarks are copied fields and not modelled; the detections are required to fit the array, as the source takes for granted of num_faces_detected and MAX_ROI (`camera/QCamera2/HAL/QCamera2HWI.cpp` lines 8309-8357).
- BoostWindow.DurationClamped: the duration a hint asks for is an integer without bounds; the 32-bit sum of it and 750 (`power/power-helper.c` lines 316-322) has no defined result when it overflows.
- CycleCounts.CycleCountBackupRestore.Restore: the gauge's text is modelled as the bins printed with a line end, and integers outside 32 bits, for which scanf is undefined, do not occur in a file this code wrote.
- The learned-capacity backup, a single number handled like one bin.
- Metadata.ParseHintMetadata: the three parsing loops of the source are the same text and are modelled once.
- HIDL service mains, dumpstate, gnss, audio, recovery, scripts, sensor tables: plumbing or constant data.
- Thermal level rounding, EXIF assembly, file dumping and FPS logging: floating point or easy members.
