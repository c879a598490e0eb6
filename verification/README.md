# Camera HAL: buffers, notifications, jobs and parameters

Dafny models of the stateful core of the QCamera2 HAL, with proofs of what it promises over every
input and every run. `dafny verify dfyconfig.toml` checks everything.

| file | models |
|---|---|
| `preview_protocol.dfy` | preview buffers travelling between kernel, HAL and display under two callback threads |
| `callback_notifier.dfy` | the callback notifier: notification queue, command queue, flushes, snapshot count |
| `deferred_work.dfy` | the deferred-work scheduler: job table, queue, worker, waiters |
| `api_result_list.dfy` | the linked list behind the blocking API calls |
| `preview_copy.dfy` | the copy of padded preview planes for the application, and its zero-copy shortcut |
| `video_batch.dfy` | video frames packed into native handles, batch by batch |
| `camera_channel.dfy` | super buffers going back, streams added, linked and stopped |
| `reprocess_channel.dfy` | buffers mapped for offline reprocessing |
| `camera_parameters.dfy`, `c_strings.dfy` | the parameter string codec, on C strings, `%d` and `strtol` |
| `auto_focus.dfy` | auto-focus requests and the events that answer them |

The concurrent parts are state machines whose steps are the lock regions and the calls out of the
HAL, or single stores where there is no lock; a run is any interleaving of such steps. Beside each
machine stands a class with the source's fields, whose methods are the code's regions and loops;
each method is proved to take the step it stands for, or to keep a representation of the abstract
state. The preview and notifier classes also keep their own history, which is proved to be a run,
with the other threads moving between the regions of each routine; so what is proved of all runs
holds of the fields. Results of calls that leave the modelled code are parameters, and the theorems
hold for all their values.

## What the proofs found

- `mEnqueuedBuffers` does not equal the number of buffers on display: the buffers cancelled back
  for the window's own reserve (`QCameraMem.cpp:2277-2283`) are never counted.
  `CounterTracksDisplay` states the exact relation, `CounterIsDisplayIff` when the two agree.
- SNAPSHOT_DONE is raised once per START only while the 32-bit snapshot count does not come round
  (`SnapshotDoneOnce`); `SnapshotDoneAgain` is a run in which it is raised twice. A snapshot can lose
  its release callback (`SnapshotDropped`; `DroppedIff` says when).
- The worker keeps `job_status` from one job to the next. `StaleStatusFailsGoodJob` shows a good job
  recorded as failed; `RecordedGoodInRunIff` is the exact condition. A metadata allocation that fails is
  not recorded at all (`FailedAllocationPasses`).
- A failed job keeps its slot for ever, so 25 failures end the service (`ExhaustedForever`,
  `TableGetsExhausted`).
- A preview image of size zero reaches the application as a null data pointer; the contract of
  `SendPreviewCallback` says exactly when.
- A complete video batch that is not handed over (callback disabled, or notifier refusing) keeps its
  slot and all its buffers, and when every slot is dead recording has ended for good
  (`AcceptsAgainIff`, `AllSlotsDie`). When the notifier refuses, the last buffer goes back to the
  camera while the slot still lists it (`RefusalMiscounts`).
- A release clears the owner flag of a video slot before its count, without a lock. When a frame is
  stored in the slot in between, the count comes out short: a buffer is lost at the next release
  (`LateClearLosesFrame`), or the slot stays owned and a stray buffer goes back
  (`LateClearSticksSlot`). `BuffersAccountedIff` is the exact condition for both failures.
- The comment above the packing code names places `data[mNumFDs + 1]` and so on; the code writes to
  `index + k * n`, which the model follows.
- A stream linked to the channel that created it is stopped twice (`StopsOnceIff`, `OwnLinkStopsTwice`).
- A failed unmapping is forgotten when the channel stops, and its index is used again (`StopLeaves`,
  `ListIsMappedIff`, `ForgottenMapping`, `ForgottenMappingIsMappedAgain`).
- A key read by unflatten may contain ';', and its value '=' (`KeyMayHoldSemicolon`); the round trip
  holds all the same (`RoundTripIff`).
- A focus request ends without an answer when the focus mode changes before the lock
  (`EndsSilentlyIff`, `RequestEndsSilently`).

## Model

| member | source | states |
|---|---|---|
| `PreviewProtocol.EveryBufferHasOneHolder` | camera/QCamera2/HAL/QCamera2HWICallbacks.cpp:720-917 | In every interleaving of the two callbacks each buffer is with exactly one of kernel, display and HAL, and the HAL never holds it twice |
| `PreviewProtocol.EveryDeliveryReturnedOnce` | camera/QCamera2/HAL/QCamera2HWICallbacks.cpp:822-917 | Each frame the kernel delivered has exactly one bufDone, the outstanding one excepted; also when a buffer is dequeued, refilled and skipped before its earlier callback runs |
| `PreviewProtocol.CounterTracksDisplay` | camera/QCamera2/HAL/QCamera2HWICallbacks.cpp:752-891 | mEnqueuedBuffers is the number of buffers on display above the window's reserve, less enqueues and plus dequeues not yet counted |
| `PreviewProtocol.CounterIsDisplayIff` | camera/QCamera2/HAL/QCamera2HWICallbacks.cpp:752-891 | The counter is the number of buffers on display, but for updates due, if and only if the window keeps no reserve |
| `PreviewProtocol.ReserveIsNotCounted` | camera/QCamera2/HAL/QCameraMem.cpp:2277-2281 | With a reserve the counter is wrong from the start |
| `PreviewProtocol.CounterNeverWraps` | camera/QCamera2/HAL/QCamera2HWICallbacks.cpp:864-891 | Each step changes the 8-bit counter by at most one without wrap, and a decrement finds it positive although the loop bound is stale |
| `PreviewProtocol.KernelBuffersAreMapped` | camera/QCamera2/HAL/QCamera2HWICallbacks.cpp:892-916 | A buffer the kernel may fill is mapped in the backend |
| `PreviewProtocol.MappedBeforeReturn` | camera/QCamera2/HAL/QCamera2HWICallbacks.cpp:892-912 | When bufDone is due for a dequeued buffer the backend has mapped it |
| `PreviewProtocol.NothingStranded` | camera/QCamera2/HAL/QCamera2HWICallbacks.cpp:720-917 | With both threads idle and no frame queued, every buffer is in the kernel or on display and no skip flag is left set |
| `PreviewProtocol.RunKeepsInv` | camera/QCamera2/HAL/QCamera2HWICallbacks.cpp:720-917 | The invariant of the protocol holds after every step of every run |
| `PreviewProtocol.InitialInv` | camera/QCamera2/HAL/QCamera2HWI.cpp:2768-2775 | The start state (first five buffers mapped, the window's reserve cancelled back, the counter at count less five) meets the invariant |
| `PreviewProtocol.InitialFields` | camera/QCamera2/HAL/QCamera2HWI.cpp:2768-2775 | The start state buffer by buffer: on display the window's reserve and all past the first five, in the kernel the others, the counter at count less five |
| `PreviewProtocol.PreviewHal.SkipFrame` | camera/QCamera2/HAL/QCamera2HWICallbacks.cpp:721-727 | Marks the frame skipped and leaves the display alone |
| `PreviewProtocol.PreviewHal.EnqueueFrame` | camera/QCamera2/HAL/QCamera2HWICallbacks.cpp:748-752 | Moves the frame to the display before the counter moves |
| `PreviewProtocol.PreviewHal.ShowOrSkip` | camera/QCamera2/HAL/QCamera2HWICallbacks.cpp:721-752 | A needed frame goes to the display, one not needed is marked skipped, and nothing else changes |
| `PreviewProtocol.PreviewHal.CountFrame` | camera/QCamera2/HAL/QCamera2HWICallbacks.cpp:754-758 | Adds exactly one to the counter, in a region of its own |
| `PreviewProtocol.PreviewHal.CheckDiscard` | camera/QCamera2/HAL/QCamera2HWICallbacks.cpp:822-836 | Without a synchronous callback the frame is discarded exactly when it is not needed; with one exactly when it was marked skipped, and only then its mark is cleared |
| `PreviewProtocol.PreviewHal.DequeueBuffer` | camera/QCamera2/HAL/QCameraMem.cpp:2023-2093 | The display gives back a buffer it holds, known or the next unknown one, which raises the mappable count, or nothing changes |
| `PreviewProtocol.PreviewHal.CountDequeued` | camera/QCamera2/HAL/QCamera2HWICallbacks.cpp:889-891 | Takes exactly one from the counter |
| `PreviewProtocol.PreviewHal.MapDequeued` | camera/QCamera2/HAL/QCamera2HWICallbacks.cpp:892-905 | Maps a buffer new to the backend, in a step before bufDone |
| `PreviewProtocol.PreviewHal.ReturnBuffer` | camera/QCamera2/HAL/QCamera2HWICallbacks.cpp:908-916 | Returns the dequeued buffer to the driver, a step that only a mapping step enables |
| `PreviewProtocol.RecordedIsRun` | camera/QCamera2/HAL/QCamera2HWICallbacks.cpp:720-917 | A history written step by step by the regions of the code is a run, so the theorems about runs hold of the object |
| `PreviewProtocol.PreviewHal.Interfere` | camera/QCamera2/HAL/QCamera2HWICallbacks.cpp:720-764 | Whatever the kernel and the synchronous callback do between two regions of the other thread continues the run |
| `PreviewProtocol.PreviewHal.PlaceFrame` | camera/QCamera2/HAL/QCamera2HWICallbacks.cpp:822-876 | The part before the loop: a discarded frame is returned by a step of its own, a frame kept without synchronous callback is given to the display by one, and the bound is the counter as last read |
| `PreviewProtocol.PreviewHal.DequeueLoop` | camera/QCamera2/HAL/QCamera2HWICallbacks.cpp:881-917 | The loop with its stale bound ends either after as many buffers as the bound says, or with the display giving nothing as its last step |
| `PreviewProtocol.PreviewHal.PreviewStreamCb` | camera/QCamera2/HAL/QCamera2HWICallbacks.cpp:822-917 | With the other thread moving between its regions the run continues and takes this frame first. It is discarded exactly when not needed, or with a synchronous callback when marked skipped at the decision; discarded it is returned, kept without that callback it is shown. The loop ends as its bound or the display says |
| `CallbackNotifier.AcceptedIsInOnePlace` | camera/QCamera2/HAL/QCamera2HWICallbacks.cpp:3384-3406 | An accepted notification is queued, in the notifier thread's hand or settled, exactly once |
| `CallbackNotifier.OutcomeIsFinal` | camera/QCamera2/HAL/QCamera2HWICallbacks.cpp:3214-3361 | A settled notification is never settled again and its outcome never changes: no release callback runs twice |
| `CallbackNotifier.ExitSettlesEverything` | camera/QCamera2/HAL/QCamera2HWICallbacks.cpp:3357-3361 | After exit each accepted notification is settled once; release has run for notify, data and timestamp kinds, and a snapshot may have been handed on or dropped |
| `CallbackNotifier.DroppedIff` | camera/QCamera2/HAL/QCamera2HWICallbacks.cpp:3288-3330 | A snapshot loses its release callback exactly when snapshot mode or the data callback is off at delivery |
| `CallbackNotifier.NoWakeupsMeansEmpty` | camera/QCamera2/HAL/QCamera2HWICallbacks.cpp:3201-3226 | Queue length never exceeds pending tokens, producers before sendCmd and a consumer past its token; so with none of these the queue is empty |
| `CallbackNotifier.SnapshotDoneOnce` | camera/QCamera2/HAL/QCamera2HWICallbacks.cpp:3288-3302 | Since the last START, SNAPSHOT_DONE was raised at most once if and only if the 32-bit count has not come round; within the range it was raised exactly from the expected-th snapshot on; never in longshot mode |
| `CallbackNotifier.QuietAfterStop` | camera/QCamera2/HAL/QCamera2HWICallbacks.cpp:3214-3222 | From STOP to the next START nothing counts and SNAPSHOT_DONE is not raised |
| `CallbackNotifier.DeliveredInOrder` | camera/QCamera2/HAL/QCamera2HWICallbacks.cpp:3214-3361 | Of two notifications delivered, the one accepted when the other was not yet is delivered first, whatever is flushed in between |
| `CallbackNotifier.AcceptedInOrder` | camera/QCamera2/HAL/QCamera2HWICallbacks.cpp:3384-3406 | What is accepted stays accepted, and later ones have later ids |
| `CallbackNotifier.SnapshotDoneAgain` | camera/QCamera2/HAL/QCamera2HWICallbacks.cpp:3291-3302 | A run from the start in which SNAPSHOT_DONE is raised twice for one START, after 2^32 + 1 snapshots |
| `CallbackNotifier.SnapshotDropped` | camera/QCamera2/HAL/QCamera2HWICallbacks.cpp:3288-3330 | A run from the start in which a snapshot's release callback is never called nor handed on |
| `CallbackNotifier.FlushSplits` | camera/QCamera2/util/QCameraQueue.cpp:385-417 | A filtered flush splits the queue into released and kept notifications, each in one part |
| `CallbackNotifier.FlushMembers` | camera/QCamera2/util/QCameraQueue.cpp:385-417 | All and only the matching notifications are released |
| `CallbackNotifier.FlushIsFilter` | camera/QCamera2/util/QCameraQueue.cpp:385-417 | The flush of a concatenation is the concatenation of the flushes, in order |
| `CallbackNotifier.FlushReleases` | camera/QCamera2/HAL/QCamera2HWICallbacks.cpp:3075-3160 | A flush of an open queue releases every match once, with FAILED_TRANSACTION, and of a closed one nothing |
| `CallbackNotifier.RunKeepsInv` | camera/QCamera2/HAL/QCamera2HWICallbacks.cpp:3177-3406 | The notifier's invariant holds in every reachable state |
| `CallbackNotifier.QCameraCbNotifier.UnlinkMatching` | camera/QCamera2/util/QCameraQueue.cpp:399-414 | The in-place loop leaves exactly the kept nodes in order and releases exactly the matching ones in order |
| `CallbackNotifier.QCameraCbNotifier.EnqueueNotification` | camera/QCamera2/HAL/QCamera2HWICallbacks.cpp:3399-3405 | Accepts a notification exactly when the queue is active |
| `CallbackNotifier.QCameraCbNotifier.SendCmd` | camera/QCamera2/util/QCameraCmdThread.cpp:139-167 | Ordinary commands queue at the tail, priority commands at the head |
| `CallbackNotifier.QCameraCbNotifier.DeliverNotification` | camera/QCamera2/HAL/QCamera2HWICallbacks.cpp:3232-3351 | Disabled messages release with INVALID_OPERATION, unknown kinds with BAD_VALUE, notify, data and timestamp with no error; a snapshot is dropped out of snapshot mode or without data callback, else handed to the JPEG callback if set, else released; only then it counts |
| `CallbackNotifier.QCameraCbNotifier.CountDelivered` | camera/QCamera2/HAL/QCamera2HWICallbacks.cpp:3291-3302 | Adds one to the 32-bit count unless in longshot mode, and raises SNAPSHOT_DONE exactly when it meets a positive expected number |
| `CallbackNotifier.QCameraCbNotifier.ProcessStop` | camera/QCamera2/HAL/QCamera2HWICallbacks.cpp:3214-3222 | All and only snapshots leave the queue, released with FAILED_TRANSACTION, and snapshot mode ends |
| `CallbackNotifier.QCameraCbNotifier.DequeueNotification` | camera/QCamera2/HAL/QCamera2HWICallbacks.cpp:3225-3230 | The head of the data queue is in hand, and nothing when it is empty or closed |
| `CallbackNotifier.QCameraCbNotifier.ProcessExit` | camera/QCamera2/HAL/QCamera2HWICallbacks.cpp:3357-3361 | Everything queued is released with FAILED_TRANSACTION, and the queue is closed |
| `CallbackNotifier.QCameraCbNotifier.FlushPreviewNotifications` | camera/QCamera2/HAL/QCamera2HWICallbacks.cpp:3476-3484 | While active, all and only DATA notifications with a preview frame leave the queue, released with FAILED_TRANSACTION |
| `CallbackNotifier.QCameraCbNotifier.FlushVideoNotifications` | camera/QCamera2/HAL/QCamera2HWICallbacks.cpp:3498-3506 | The same for TIMESTAMP notifications with a video frame |
| `CallbackNotifier.RecordedIsRun` | camera/QCamera2/HAL/QCamera2HWICallbacks.cpp:3177-3406 | A history written step by step by the regions of the code is a run |
| `CallbackNotifier.QCameraCbNotifier.CbNotifyTurn` | camera/QCamera2/HAL/QCamera2HWICallbacks.cpp:3191-3366 | One turn of the thread's loop, with everybody moving in between: the head command is processed, and the thread ends exactly on EXIT |
| `CallbackNotifier.QCameraCbNotifier.ProcessCommand` | camera/QCamera2/HAL/QCamera2HWICallbacks.cpp:3203-3365 | START enters snapshot mode and STOP leaves it, DO_NEXT_JOB takes the head of the queue if there is one, EXIT closes the queue and ends the thread |
| `CallbackNotifier.QCameraCbNotifier.Accept` | camera/QCamera2/HAL/QCamera2HWICallbacks.cpp:3399-3405 | True accepts exactly one notification never seen before, false none |
| `CallbackNotifier.QCameraCbNotifier.NotifyCallback` | camera/QCamera2/HAL/QCamera2HWICallbacks.cpp:3384-3406 | Refused exactly when the notifier was inactive at the call or the data queue closed at the enqueue, and then nothing was accepted; otherwise exactly one new notification was accepted, its DO_NEXT_JOB is the last step of the call, and the caller owes no wake-up |
| `CallbackNotifier.QCameraCbNotifier.WakeOwn` | camera/QCamera2/HAL/QCamera2HWICallbacks.cpp:3400 | Puts one DO_NEXT_JOB at the tail of the commands and settles one wake-up owed |
| `CallbackNotifier.QCameraCbNotifier.EnqueueAndWake` | camera/QCamera2/HAL/QCamera2HWICallbacks.cpp:3399-3400 | With everybody moving in between: what was accepted is followed by this producer's own DO_NEXT_JOB at the tail of the commands, leaving it no wake-up to send |
| `DeferredWork.RefusedIff` | camera/QCamera2/HAL/QCamera2HWI.cpp:10024-10053 | Free, unfinished and failed slots always total 25; a job is refused exactly when unfinished and failed ones fill the table |
| `DeferredWork.RunningHasSlot` | camera/QCamera2/HAL/QCamera2HWI.cpp:10207-10227 | dequeueDeferredWork always finds the slot of its job |
| `DeferredWork.LostForever` | camera/QCamera2/HAL/QCamera2HWI.cpp:10212-10215 | The slot of a failed job never becomes free |
| `DeferredWork.ExhaustedForever` | camera/QCamera2/HAL/QCamera2HWI.cpp:10028-10052 | After 25 failures every later job is refused for the rest of the run |
| `DeferredWork.TableGetsExhausted` | camera/QCamera2/HAL/QCamera2HWI.cpp:10028-10052 | A run from the start with 25 failed jobs that refuses every further one |
| `DeferredWork.EarlierJobsAreFinal` | camera/QCamera2/HAL/QCamera2HWI.cpp:9695-9998 | When a job runs every job queued before it is final and the table still tells how it ended |
| `DeferredWork.FailedPrerequisiteFailsJob` | camera/QCamera2/HAL/QCamera2HWI.cpp:9742-9751 | PPROC_START, METADATA_ALLOC, CREATE_JPEG_SESSION and PARAM_INIT are recorded with the failure of the earlier job they depend on, whatever becomes of their own work |
| `DeferredWork.OthersDependOnNothing` | camera/QCamera2/HAL/QCamera2HWI.cpp:9706-9991 | ALLOCATE_BUFF, PPROC_INIT, PARAM_ALLOC and GENERIC end the same whatever job is named as prerequisite |
| `DeferredWork.OwnFailureCode` | camera/QCamera2/HAL/QCamera2HWI.cpp:9706-9991 | The error recorded for a job whose own work fails, command by command |
| `DeferredWork.RecordedGoodIff` | camera/QCamera2/HAL/QCamera2HWI.cpp:9988-9998 | A job is recorded good exactly when the job it depends on (PPROC_START, METADATA_ALLOC, CREATE_JPEG_SESSION, PARAM_INIT) is good, its work did not fail, and it is generic or the worker's stale status was clear |
| `DeferredWork.RecordedGoodInRunIff` | camera/QCamera2/HAL/QCamera2HWI.cpp:9988-9998 | Over any run the stale condition is that the job finished before was recorded good, or the job is the first |
| `DeferredWork.StaleStatusFailsGoodJob` | camera/QCamera2/HAL/QCamera2HWI.cpp:9664-9665 | A run in which a job that did nothing wrong is recorded with the failure of the job before it |
| `DeferredWork.FailedAllocationPasses` | camera/QCamera2/HAL/QCamera2HWI.cpp:9782-9790 | A run from the start in which a metadata allocation that fails is recorded as good |
| `DeferredWork.FailureIsSticky` | camera/QCamera2/HAL/QCamera2HWI.cpp:9988-9998 | After a failure every job finishing before the next generic one is recorded failed |
| `DeferredWork.FinalIsStable` | camera/QCamera2/HAL/QCamera2HWI.cpp:10241-10254 | The recorded end of a job never changes, so later waits agree |
| `DeferredWork.WaitSeesTheTruth` | camera/QCamera2/HAL/QCamera2HWI.cpp:10269-10304 | A job is in progress exactly while unfinished; afterwards the status read is zero if and only if its slot was freed |
| `DeferredWork.FinishBringsNearer` | camera/QCamera2/HAL/QCamera2HWI.cpp:10291-10304 | Each finished job brings a waited-for job one nearer, the measure by which the wait ends |
| `DeferredWork.RunKeepsInv` | camera/QCamera2/HAL/QCamera2HWI.cpp:9660-10053 | The slots in use are exactly the queued and running jobs and the failed ones, in every reachable state |
| `DeferredWork.DeferredScheduler.QueueDeferredWork` | camera/QCamera2/HAL/QCamera2HWI.cpp:10024-10053 | Fills the first free slot, numbers the job and queues it last; 0 exactly when no slot is free, and then nothing changes |
| `DeferredWork.DeferredScheduler.DequeueDeferredWork` | camera/QCamera2/HAL/QCamera2HWI.cpp:10207-10227 | Frees the slot of a good job and stamps the error on that of a failed one |
| `DeferredWork.DeferredScheduler.GetDefJobStatus` | camera/QCamera2/HAL/QCamera2HWI.cpp:10241-10254 | The status of the first slot with this id, zero without one |
| `DeferredWork.DeferredScheduler.CheckDeferredWork` | camera/QCamera2/HAL/QCamera2HWI.cpp:10269-10277 | True exactly for a listed job without an error |
| `DeferredWork.DeferredScheduler.FinishJob` | camera/QCamera2/HAL/QCamera2HWI.cpp:9742-9998 | One turn of the worker: a dependent job after a failed one is not begun and gets its error; a job begun gets the code of its command or keeps the stale status; the invariant holds |
| `DeferredWork.DeferredScheduler.RunJob` | camera/QCamera2/HAL/QCamera2HWI.cpp:9705-9992 | Whether the job's own work is begun, and the status it leaves, command by command |
| `DeferredWork.DeferredScheduler.WaitDeferredWork` | camera/QCamera2/HAL/QCamera2HWI.cpp:10291-10304 | Ends for every id, and returns the final status of an issued job |
| `ApiResultList.ClaimsInSignallingOrder` | camera/QCamera2/HAL/QCamera2HWI.cpp:6681-6758 | Over any run the results claimed for an event followed by those still listed are those signalled for it, in order: none twice, none lost |
| `ApiResultList.ClaimMeans` | camera/QCamera2/HAL/QCamera2HWI.cpp:6688-6707 | A claim finds the first result for its event and takes out no other |
| `ApiResultList.ResultList.SignalAPIResult` | camera/QCamera2/HAL/QCamera2HWI.cpp:6738-6758 | Appends a new node at the end of the heap list, earlier nodes keeping their place, and is one step of the history the list is proved to hold |
| `ApiResultList.ResultList.FindFirst` | camera/QCamera2/HAL/QCamera2HWI.cpp:6689-6706 | Finds the first node for the event and the node before it |
| `ApiResultList.ResultList.Unlink` | camera/QCamera2/HAL/QCamera2HWI.cpp:6695-6699 | Takes one node out; the chain stays acyclic and the others keep their order |
| `ApiResultList.ResultList.RemoveFirst` | camera/QCamera2/HAL/QCamera2HWI.cpp:6688-6707 | Relinks past exactly the first node for the event, or changes nothing |
| `ApiResultList.ResultList.ClaimAPIResult` | camera/QCamera2/HAL/QCamera2HWI.cpp:6688-6707 | Nothing is claimed exactly when no result is for the event; otherwise the first one that is, and the list is the old one without it |
| `PreviewCopy.PackedImageIsUnique` | camera/QCamera2/HAL/QCamera2HWICallbacks.cpp:1046-1068 | Every byte of the packed image is determined by a pixel of the padded one: nothing is left unwritten |
| `PreviewCopy.OffsetIsPixel` | camera/QCamera2/HAL/QCamera2HWICallbacks.cpp:1046-1068 | Every offset of a packed plane is the place of exactly one row and column |
| `PreviewCopy.EqualSizesIff` | camera/QCamera2/HAL/QCamera2HWICallbacks.cpp:1027-1035 | For a nonempty image whose rows and lines fit the planes, packed and padded size agree exactly when no plane is padded |
| `PreviewCopy.ShortcutIsPacked` | camera/QCamera2/HAL/QCamera2HWICallbacks.cpp:1036-1043 | When the zero-copy shortcut is taken for planes the image fits, the head of the camera's buffer already is the packed image |
| `PreviewCopy.CopyRows` | camera/QCamera2/HAL/QCamera2HWICallbacks.cpp:1052-1059 | The row loop stays in both buffers, copies its plane exactly and leaves what precedes it |
| `PreviewCopy.PackImage` | camera/QCamera2/HAL/QCamera2HWICallbacks.cpp:1052-1072 | The two row loops turn padded planes into the packed image, pixel by pixel |
| `PreviewCopy.SendPreviewCallback` | camera/QCamera2/HAL/QCamera2HWICallbacks.cpp:950-1110 | The memory has width*height*3/2 bytes (halved rows rounded down), for YV12 the three planes; it is the camera's own exactly when that equals the padded size. The application sees the packed image on either path; the memory goes out with the notification or is given back once; with size zero the data pointer is null |
| `VideoBatch.BatchesPartitionFrames` | camera/QCamera2/HAL/QCamera2HWICallbacks.cpp:1448-1508 | In every interleaving with releases the accepted frames are the closed batches of n in order, then the open batch, which holds fewer than n |
| `VideoBatch.EveryFrameIsSomewhere` | camera/QCamera2/HAL/QCamera2HWICallbacks.cpp:1443-1580 | Each frame that arrived was dropped, returned by a release, lost by one, is kept in a slot, or is being stored: exactly one of these |
| `VideoBatch.BuffersAccountedIff` | camera/QCamera2/HAL/QCameraStream.cpp:1210-1217 | Every slot lists its whole batch and every frame went back once or is listed once, if and only if no batch was refused and no release cleared a count after a frame was stored in the slot it had just given up |
| `VideoBatch.LateClearIff` | camera/QCamera2/HAL/QCameraStream.cpp:1216-1217 | Such a late clearing, read off the events, is exactly the clearing of a count whose slot holds frames |
| `VideoBatch.CountExactIff` | camera/QCamera2/HAL/QCamera2HWICallbacks.cpp:1479-1483 | The count of a slot covers its batch exactly when it was not cleared late since the slot was opened |
| `VideoBatch.RefusalMiscounts` | camera/QCamera2/HAL/QCamera2HWICallbacks.cpp:1575-1579 | For every batch size, a run from the start that miscounts a buffer by a refusal alone |
| `VideoBatch.LateClearLosesFrame` | camera/QCamera2/HAL/QCameraStream.cpp:1212-1217 | For every batch size from 2 on, a run without refusals that loses a frame for good between the two stores of a release |
| `VideoBatch.LateClearSticksSlot` | camera/QCamera2/HAL/QCameraStream.cpp:1210-1223 | For every batch size, a run without refusals in which a release finds a count of zero, returns a stray buffer and leaves the slot owned |
| `VideoBatch.DeadForever` | camera/QCamera2/HAL/QCamera2HWICallbacks.cpp:1560-1583 | A slot whose batch was not handed over, or whose count is gone or about to go, keeps its frames for the rest of the run |
| `VideoBatch.AllDeadDropsEverything` | camera/QCamera2/HAL/QCamera2HWICallbacks.cpp:1450-1469 | With all three slots dead no frame is accepted again |
| `VideoBatch.AcceptsAgain` | camera/QCamera2/HAL/QCamera2HWICallbacks.cpp:1443-1508 | With one slot not dead any run goes on to accept any given frame |
| `VideoBatch.AcceptsAgainIff` | camera/QCamera2/HAL/QCamera2HWICallbacks.cpp:1443-1508 | From any state of a run a frame can still be accepted if and only if not every slot is dead |
| `VideoBatch.AllSlotsDie` | camera/QCamera2/HAL/QCamera2HWICallbacks.cpp:1560-1583 | For every batch size, a run from the start in which all three slots die |
| `VideoBatch.DecodeGivesFrame` | camera/QCamera2/HAL/QCamera2HWICallbacks.cpp:1492-1497 | The six fields at index + k*n are the frame's; time and size are exact if and only if they fit 32 bits |
| `VideoBatch.PlacesAreApart` | camera/QCamera2/HAL/QCamera2HWICallbacks.cpp:1492-1497 | No two fields of any frames share a place, and none reaches the slot number at 6n |
| `VideoBatch.UserBatchIsReadable` | camera/QCamera2/HAL/QCamera2HWICallbacks.cpp:1526-1553 | The same layout, place by place, holds for batches made by the camera; places of absent planes are left alone |
| `VideoBatch.PackUserBuffer` | camera/QCamera2/HAL/QCamera2HWICallbacks.cpp:1526-1553 | The plane loop writes exactly the planes present |
| `VideoBatch.RunKeepsInv` | camera/QCamera2/HAL/QCamera2HWICallbacks.cpp:1443-1508 | At most one slot is filling, with fewer than n frames, closed slots hold n, and frames are accounted for, in every reachable state of the two threads |
| `VideoBatch.RecordedIsRun` | camera/QCamera2/HAL/QCamera2HWICallbacks.cpp:1443-1580 | A history written step by step by the regions of the code is a run |
| `VideoBatch.VideoStream.OpenBatchCountIff` | camera/QCamera2/HAL/QCamera2HWICallbacks.cpp:1479-1483 | While a batch is open numBuffers equals mCurBufIndex if and only if no release cleared it late since the slot was opened |
| `VideoBatch.VideoStream.BatchIsReadable` | camera/QCamera2/HAL/QCamera2HWICallbacks.cpp:1492-1503 | In a complete batch fd, 0, size, usage, time difference and format of frame k stand at k, k+n, ..., k+5n, size and time exact if and only if they fit 32 bits, and the common int names the slot to release |
| `VideoBatch.VideoStream.FindFree` | camera/QCamera2/HAL/QCamera2HWICallbacks.cpp:1451-1452 | The first slot the consumer does not own |
| `VideoBatch.VideoStream.ArriveFrame` | camera/QCamera2/HAL/QCamera2HWICallbacks.cpp:1448-1469 | The frame can be stored exactly when a batch is open, or there is memory and a slot not owned; otherwise it is dropped; one step of the run |
| `VideoBatch.VideoStream.StoreIntoSlot` | camera/QCamera2/HAL/QCamera2HWICallbacks.cpp:1471-1580 | Stores the frame; the n-th completes the batch, which becomes the consumer's only when handed over, and whose last buffer goes back only when refused; one step of the run |
| `VideoBatch.VideoStream.VideoStreamCb` | camera/QCamera2/HAL/QCamera2HWICallbacks.cpp:1443-1580 | One callback, with the releasing thread moving between its regions: with a batch open, or memory and a slot not owned, exactly this frame is accepted, and its buffer is returned only when it completes a refused batch; otherwise the frame is dropped and its buffer returned. What is returned is what the history adds to dropped and early |
| `VideoBatch.VideoStream.ReturnBuffersOf` | camera/QCamera2/HAL/QCameraStream.cpp:1210-1215 | Returns exactly the frames the count covers, in order, or with a count of zero the buffer with the slot's own number |
| `VideoBatch.VideoStream.ClearOwnerFlag` | camera/QCamera2/HAL/QCameraStream.cpp:1216 | Gives the slot up while its count still stands |
| `VideoBatch.VideoStream.ClearNumBuffers` | camera/QCamera2/HAL/QCameraStream.cpp:1217 | Clears the count, whatever is in the slot by then |
| `VideoBatch.VideoStream.ReleaseBatch` | camera/QCamera2/HAL/QCameraStream.cpp:1210-1223 | One release, with the stream thread moving between its statements |
| `CameraChannel.RemainingIsStable` | camera/QCamera2/HAL/QCameraChannel.cpp:451-478 | What bufDone for one stream leaves are exactly the other entries, in their order |
| `CameraChannel.FilterCounts` | camera/QCamera2/HAL/QCameraChannel.cpp:451-478 | All buffers of the stream's handle leave the super buffer and no other |
| `CameraChannel.ReturnedInTwoSteps` | camera/QCamera2/HAL/QCameraChannel.cpp:420-478 | Returning one stream's buffers first and the rest later returns each buffer as often as returning all at once |
| `CameraChannel.ReturnableCounts` | camera/QCamera2/HAL/QCameraChannel.cpp:420-437 | A super buffer's entry goes back as often as it stands there if a stream has its handle, and never otherwise |
| `CameraChannel.StopsOnceIff` | camera/QCamera2/HAL/QCameraChannel.cpp:378-406 | stop stops a stream of the channel exactly once if and only if no operation linked it to its own channel; it never stops a linked one |
| `CameraChannel.LinkedOwnIff` | camera/QCamera2/HAL/QCameraChannel.cpp:263-284 | The history of own links is exactly what the operations say |
| `CameraChannel.StopLeavesAdded` | camera/QCamera2/HAL/QCameraChannel.cpp:388-402 | When no operation linked a stream to its own channel, stop leaves exactly the streams the channel created, in order |
| `CameraChannel.OwnLinkAddsAStop` | camera/QCamera2/HAL/QCameraChannel.cpp:263-284 | Linking a stream to the channel that created it makes stop stop it once more |
| `CameraChannel.OwnLinkStopsTwice` | camera/QCamera2/HAL/QCameraChannel.cpp:263-402 | A run from the start after which stop stops one stream twice |
| `CameraChannel.SuperBuffer.Shift` | camera/QCamera2/HAL/QCameraChannel.cpp:468-471 | Closes the gap in place and keeps every other entry |
| `CameraChannel.QCameraChannel.BufDoneStream` | camera/QCamera2/HAL/QCameraChannel.cpp:451-478 | Removes and returns all and only the stream's buffers in order if the channel knows the stream, and changes nothing otherwise |
| `CameraChannel.QCameraChannel.BufDone` | camera/QCamera2/HAL/QCameraChannel.cpp:420-437 | Returns each buffer as often as it is there if some stream's handle is its stream id, in order, and no other |
| `CameraChannel.QCameraChannel.AddStream` | camera/QCamera2/HAL/QCameraChannel.cpp:209-249 | Adds an initialised stream unless eight are there already |
| `CameraChannel.QCameraChannel.LinkStream` | camera/QCamera2/HAL/QCameraChannel.cpp:263-284 | Adds a linked stream, or reports why not and changes nothing |
| `CameraChannel.QCameraChannel.StopOwnStreams` | camera/QCamera2/HAL/QCameraChannel.cpp:388-402 | The loop that removes while it walks ends, keeps the channel's own streams in order and stops each entry once |
| `CameraChannel.QCameraChannel.StopChannel` | camera/QCamera2/HAL/QCameraChannel.cpp:378-406 | Stops an active channel and forgets the linked streams; NO_INIT when inactive |
| `ReprocessChannel.IndicesAreDense` | camera/QCamera2/HAL/QCameraChannel.cpp:1342-1385 | Offline buffers are numbered exactly 0 to n-1 in list order in every reachable state |
| `ReprocessChannel.ListedOnce` | camera/QCamera2/HAL/QCameraChannel.cpp:1342-1385 | No mapping is listed twice |
| `ReprocessChannel.ListIsMappedIff` | camera/QCamera2/HAL/QCameraChannel.cpp:1282-1385 | The list is what the backend has mapped if and only if every stop so far unmapped all it found listed |
| `ReprocessChannel.NothingStuckIff` | camera/QCamera2/HAL/QCameraChannel.cpp:1282-1305 | A mapping outlives its listing exactly when some stop met a listed buffer that did not unmap |
| `ReprocessChannel.MappedAtMostOnce` | camera/QCamera2/HAL/QCameraChannel.cpp:1342-1385 | As long as every unmapping succeeds, the backend never holds a mapping twice |
| `ReprocessChannel.ForgottenMapping` | camera/QCamera2/HAL/QCameraChannel.cpp:1290-1302 | A run in which a failed unmapping leaves a mapping nobody lists |
| `ReprocessChannel.ForgottenMappingIsMappedAgain` | camera/QCamera2/HAL/QCameraChannel.cpp:1342-1385 | The next request reuses its index, and the backend holds the same mapping twice |
| `ReprocessChannel.StopLeaves` | camera/QCamera2/HAL/QCameraChannel.cpp:1282-1305 | stop leaves mapped exactly what failed to unmap, and nothing if and only if no stop so far met a failure |
| `ReprocessChannel.StopMeans` | camera/QCamera2/HAL/QCameraChannel.cpp:1282-1305 | Of each listed buffer stop leaves mapped what was stuck, and one more exactly if its unmapping fails |
| `ReprocessChannel.RunKeepsInv` | camera/QCamera2/HAL/QCameraChannel.cpp:1282-1385 | The numbering and the account of mappings hold in every reachable state |
| `ReprocessChannel.QCameraReprocessChannel.NextIndex` | camera/QCamera2/HAL/QCameraChannel.cpp:1342-1348 | One more than the largest listed index is the length of the list |
| `ReprocessChannel.QCameraReprocessChannel.GetStreamBySourceHandle` | camera/QCamera2/HAL/QCameraChannel.cpp:1257-1269 | The first stream made for the source |
| `ReprocessChannel.QCameraReprocessChannel.DoReprocessOffline` | camera/QCamera2/HAL/QCameraChannel.cpp:1321-1416 | Without frame, metadata or a stream nothing changes. Otherwise metadata is mapped at the next index, then input at the one after; a request goes out only with both mapped and names exactly these two |
| `ReprocessChannel.QCameraReprocessChannel.UnmapAll` | camera/QCamera2/HAL/QCameraChannel.cpp:1286-1302 | Unmaps each listed buffer once, in order |
| `ReprocessChannel.QCameraReprocessChannel.StopOffline` | camera/QCamera2/HAL/QCameraChannel.cpp:1282-1305 | Unmaps everything listed and clears the list whatever the backend answers |
| `CameraParameterCodec.RoundTripIff` | camera/QCamera2/HAL/CameraParameters.cpp:185-235 | unflatten(flatten(m)) is m if and only if keys are free of '=', values of ';' and both of NUL, for every sorted map |
| `CameraParameterCodec.FlattenedSnoc` | camera/QCamera2/HAL/CameraParameters.cpp:185-203 | One more entry adds ';', key, '=' and value to the text |
| `CameraParameterCodec.ParseTakesItem` | camera/QCamera2/HAL/CameraParameters.cpp:205-235 | At any point of any text: key up to the first '=', value up to the next ';', a later entry replacing an earlier one |
| `CameraParameterCodec.KeyMayHoldSemicolon` | camera/QCamera2/HAL/CameraParameters.cpp:205-235 | unflatten makes a key with ';' and a value with '=', which set refuses |
| `CameraParameterCodec.ReachableIsClean` | camera/QCamera2/HAL/CameraParameters.cpp:205-252 | Every map reached by set, remove and unflatten on any texts has keys without '=' and values without ';' |
| `CameraParameterCodec.ReachableRoundTrip` | camera/QCamera2/HAL/CameraParameters.cpp:185-294 | Every reachable map survives flatten and unflatten |
| `CameraParameterCodec.FlattenIsInjective` | camera/QCamera2/HAL/CameraParameters.cpp:185-203 | Different reachable maps have different flattened texts |
| `CameraParameterCodec.FlattenIsNormalForm` | camera/QCamera2/HAL/CameraParameters.cpp:185-235 | flatten after unflatten is idempotent on every text |
| `CameraParameterCodec.ValueAfterInsert` | camera/QCamera2/HAL/CameraParameters.cpp:238-252 | After a set the key has the new value and every other key its old one |
| `CameraParameterCodec.ValueIsEntry` | camera/QCamera2/HAL/CameraParameters.cpp:268-274 | valueFor gives the value of the entry with the key, or the empty string |
| `CameraParameterCodec.ValueAfterRemove` | camera/QCamera2/HAL/CameraParameters.cpp:291-294 | After a remove the key has no value and every other key its old one |
| `CameraParameterCodec.IntRoundTrip` | camera/QCamera2/HAL/CameraParameters.cpp:254-282 | set(int) and getInt return every 32-bit int, with 32- and 64-bit long |
| `CameraParameterCodec.AbsentReadsMinusOne` | camera/QCamera2/HAL/CameraParameters.cpp:268-282 | A key without entry, or with an empty value, reads as -1, and its size as -1 by -1 |
| `CameraParameterCodec.PresentReads` | camera/QCamera2/HAL/CameraParameters.cpp:268-361 | A value present reads as what strtol makes of it, and as a size if 'x' stands right behind its first number |
| `CameraParameterCodec.SizeRoundTrip` | camera/QCamera2/HAL/CameraParameters.cpp:347-361 | The size setters and getters return every pair of 32-bit ints |
| `CameraParameterCodec.PairRoundTrip` | camera/QCamera2/HAL/CameraParameters.cpp:297-320 | parse_pair reads a printed size back and stops at its end |
| `CameraParameterCodec.PairNeedsDelimiter` | camera/QCamera2/HAL/CameraParameters.cpp:297-320 | Without the delimiter right behind the first number there is no pair; without a second number that one is 0 |
| `CameraParameterCodec.PairSeesFirstItem` | camera/QCamera2/HAL/CameraParameters.cpp:330-337 | parse_pair on a list depends on the first item only |
| `CameraParameterCodec.SizesRoundTrip` | camera/QCamera2/HAL/CameraParameters.cpp:322-345 | A printed nonempty list of sizes parses back to itself |
| `CameraParameterCodec.JunkSpoilsSize` | camera/QCamera2/HAL/CameraParameters.cpp:330-337 | An item with anything behind its size is none |
| `CameraParameterCodec.BadItemEndsList` | camera/QCamera2/HAL/CameraParameters.cpp:322-345 | The first item that is no size ends the list, keeping exactly the sizes before it |
| `CameraParameterCodec.ParsePairAt` | camera/QCamera2/HAL/CameraParameters.cpp:297-320 | On success both numbers and the end; on failure nothing is written |
| `CameraParameterCodec.ParseSizesList` | camera/QCamera2/HAL/CameraParameters.cpp:322-345 | Ends on every text with exactly the sizes of its longest well-formed prefix of items; nothing for a null text |
| `CameraParameterCodec.CameraParameters.Flatten` | camera/QCamera2/HAL/CameraParameters.cpp:185-203 | The accumulating loop prints the entries in key order, joined by ';' |
| `CameraParameterCodec.CameraParameters.AddEntry` | camera/QCamera2/HAL/CameraParameters.cpp:212-233 | One turn of the scanning loop |
| `CameraParameterCodec.CameraParameters.Unflatten` | camera/QCamera2/HAL/CameraParameters.cpp:205-235 | The pointer scan on any text gives the parsed map, and a clean one |
| `CameraParameterCodec.CameraParameters.Set` | camera/QCamera2/HAL/CameraParameters.cpp:238-252 | With '=' or ';' in key or value the map stays; any other value is stored as it is, whatever else it holds, and every other key keeps its own |
| `CameraParameterCodec.SetStores` | camera/QCamera2/HAL/CameraParameters.cpp:238-252 | The same as a statement about the map: exactly the new entry and the old ones under other keys |
| `CameraParameterCodec.CameraParameters.SetInt` | camera/QCamera2/HAL/CameraParameters.cpp:254-259 | Stores the int as decimal text so that getInt returns it, for every key set accepts |
| `CameraParameterCodec.CameraParameters.SetSize` | camera/QCamera2/HAL/CameraParameters.cpp:347-352 | Stores the size so that the getter returns it |
| `CameraParameterCodec.CameraParameters.RemoveKey` | camera/QCamera2/HAL/CameraParameters.cpp:291-294 | Leaves exactly the entries of all other keys |
| `CStrings.PrintParses` | camera/QCamera2/HAL/CameraParameters.cpp:254-282 | strtol reads the decimal text of any 32-bit int back, in base 10 or with the base detected |
| `CStrings.StrtolReadsOctal` | camera/QCamera2/HAL/CameraParameters.cpp:276-282 | getInt's base 0 reads "010" as 8 |
| `CStrings.StrtolReadsHex` | camera/QCamera2/HAL/CameraParameters.cpp:276-282 | getInt's base 0 reads "0x1F" as 31 |
| `CStrings.StrtolReads` | camera/QCamera2/HAL/CameraParameters.cpp:276-282 | strtol in base 10 on any number: blanks, sign, digits, saturated to the platform's long |
| `CStrings.StrtolLocal` | camera/QCamera2/HAL/CameraParameters.cpp:300-310 | strtol in base 10 looks no further than the first character that cannot continue a number |
| `AutoFocus.RequestsConserved` | camera/QCamera2/HAL/QCamera2HWI.cpp:3825-3890 | Every request armed by a call has exactly one fate, one more is pending while mActiveAF is set, and the answered ones are the FOCUS messages that events of any mode brought while a request was pending |
| `AutoFocus.OneFocusAtMost` | camera/QCamera2/HAL/QCamera2HWI.cpp:6257-6362 | An event brings at most one FOCUS, and with a request pending only the event that ends it does |
| `AutoFocus.AnsweredAtMostOnce` | camera/QCamera2/HAL/QCamera2HWI.cpp:6257-6300 | Between two accepted calls AUTO/MACRO events send FOCUS at most once, and not at all when no request was pending |
| `AutoFocus.QuietUntilArmed` | camera/QCamera2/HAL/QCamera2HWI.cpp:6258-6262 | After an answer, a cancel or a stopped preview, AUTO/MACRO events send nothing until the next accepted call |
| `AutoFocus.SingleEventAnswers` | camera/QCamera2/HAL/QCamera2HWI.cpp:6257-6300 | In AUTO/MACRO an event sends FOCUS exactly when it ends a pending request |
| `AutoFocus.SingleShotTable` | camera/QCamera2/HAL/QCamera2HWI.cpp:6257-6304 | The message of every AUTO/MACRO event with its success flag |
| `AutoFocus.ContinuousEventAnswers` | camera/QCamera2/HAL/QCamera2HWI.cpp:6301-6362 | In the continuous modes a pending request hides passive events and is answered exactly by the event that ends it |
| `AutoFocus.ContinuousTable` | camera/QCamera2/HAL/QCamera2HWI.cpp:6305-6361 | The messages of every event in the continuous modes with their flags, in order |
| `AutoFocus.SilentTable` | camera/QCamera2/HAL/QCamera2HWI.cpp:6247-6251 | A secondary camera and every other mode bring no message |
| `AutoFocus.EndsSilentlyIff` | camera/QCamera2/HAL/QCamera2HWI.cpp:6363-6374 | A request ends without an answer exactly when a lock is reported after a change to a mode without auto-focus |
| `AutoFocus.RequestEndsSilently` | camera/QCamera2/HAL/QCamera2HWI.cpp:6363-6374 | Such runs from the start, for every such pair of modes and every lock |
| `AutoFocus.HardwareInterface.AutoFocus` | camera/QCamera2/HAL/QCamera2HWI.cpp:3825-3856 | In AUTO, MACRO and the continuous modes arms a request if accepted and sends nothing; in all others answers success at once |
| `AutoFocus.HardwareInterface.CancelAutoFocus` | camera/QCamera2/HAL/QCamera2HWI.cpp:3868-3890 | Drops the pending request in modes with auto-focus |
| `AutoFocus.HardwareInterface.SingleShotEvent` | camera/QCamera2/HAL/QCamera2HWI.cpp:6257-6300 | The AUTO/MACRO branch sends exactly the messages the event means |
| `AutoFocus.HardwareInterface.ContinuousEvent` | camera/QCamera2/HAL/QCamera2HWI.cpp:6301-6362 | The continuous branch sends exactly the messages the event means, in order |
| `AutoFocus.HardwareInterface.ProcessAutoFocusEvent` | camera/QCamera2/HAL/QCamera2HWI.cpp:6242-6378 | Messages sent and the new mActiveAF for every mode and event, secondary camera included |

## Left out

- Preview: the backend calls in the callbacks (enqueueBuffer, mapNewBuffer, bufDone) succeed, as do the ion steps inside dequeueBuffer; frames sent to the application from inside the callback, and a later change of the buffer count, are not modelled.
- Preview: mm_stream's own count of buffer users is vendor code below bufDone and is not part of this model.
- Notifier: sendCmd and allocation succeed; the muxer's release after a JPEG hand-over is outside, so such a snapshot ends as handed on.
- Notifier: callbacks that differ only in what the application gets (notify, data, timestamp) settle alike and share one branch.
- Deferred work: job ids grow without wrapping within a run; the START, STOP and EXIT commands and the inactive queue are not modelled; one scheduler instance.
- Deferred work: the jobs' own work is reduced to its effect on job_status; the wait assumes that the worker, when woken, finishes a job after finitely many idle wake-ups.
- Deferred work: getDefJobStatus is called by the worker without the lock; it is modelled in one step with the job that calls it.
- API results: the blocking loop around the search, the condition variable and the failing malloc.
- Preview copy: 32-bit overflow of sizes and negative strides; mGetMemory returning an object without data; strides and scanlines are at least the image's, as the source relies on.
- Preview copy: which formats exist beyond the six supported ones; all others take the branch with a blank buffer.
- Video batch: the branch without batching, timestamps converted for the encoder, the closing of native handles and the search for the slot in QCameraMem; the consumer releases only what it was handed, and a batch the notifier accepts but later flushes or drops counts as not handed over.
- Video batch: the search for a slot and the storing of a frame are one step each; what a release still has to store in between commutes with their parts, so finer steps reach the same states. One thread does all releases, and memory is sequentially consistent.
- Video batch: for batches made by the camera, the handle is as large as its frame count asks.
- Channel and Reprocess: bufDone reads mStreams and the offline list is changed without a lock; calls on one channel are modelled one after the other.
- Channel: null entries in mStreams (addStream and linkStream never add one; stop would not end on one), the backend's return codes of bufDone, start and its bundling.
- Reprocess: 32-bit wrap of buffer indices, the metadata bypass flag, doReprocessOffline on super buffers, doReprocess, and the stop of the streams themselves (in CameraChannel).
- Parameters: setFloat and getFloat; the sorted map and String8 are libutils code, not part of this model, and stand here as a sorted sequence of entries; the value put by add on an existing key replaces it.
- Parameters: sprintf("%d") and strtol follow ISO/IEC 9899:2011, sections 7.21.6.1 and 7.22.1.4, in the C locale; a `long` of 32 or 64 bits.
- Auto focus: the calls and events come one after the other from the state machine's thread; focus distances, the flush of old frames, and the return codes of the notifications in event handling.
- The static API entry points, the state machine, thermal and face scaling, EXIF, dumping, FPS logs, the post-processor and the biometric and infrared services: dispatch or device I/O that would add only easy members.
