# E-ink presentation stack: verification project

A Dafny model of the e-ink presentation stack and proofs about it. The stack turns composed Android
frames into panel updates: a capture session copies frames into a small pool, a conversion worker
makes panel gray, a depth-one adapter feeds a serial vendor engine, and sleep images, colour-quality
pre-passes and diagnostic refreshes share the same path. A separate tool streams system images to the
device as sparse files.

`dafny verify dfyconfig.toml` checks everything.

## Modules

| module | models | main results |
|---|---|---|
| `Bits`, `Lanes`, `Raster`, `Wrappers` | fixed-width integers, NEON lane operations, row-major indexing | helpers |
| `GrayPreference` | gray and vivid colour treatment | the vector path refines the scalar loop; colour bounds |
| `Grayscale`, `GrayscaleDelta` | RGBA-to-gray conversion, rotation, difference measurement | measuring commutes with rotation; both scans agree on the tight box |
| `MicroDelta` | hold and repeat windows for small updates | held means few pixels at the edge, exactly up to the size where the band wraps 64 bits; deadlines never move |
| `FrameTracker` | exact RGB tracker and demand gate | unchanged if and only if same geometry and RGB, over runs with dropped frames and both resets, up to the exact counter cycle |
| `Presentation` | the presentation adapter | conservation, order, freshness and spacing over every interleaving; diagnostic requests ride on |
| `SleepCycle`, `Pipeline` | sleep-image latch and the pipeline around the adapter | one invariant over every run of pipeline, worker and adapter; epochs used once; what a disarm withdraws, exactly; what a sleep cycle holds back |
| `DiagnosticRefresh` | where a diagnostic refresh request lives | exactly what loses the newest request, and what a lost one blocks |
| `Overlay` | sleep-image composition | panel gray, between image and page, error bound |
| `ColorQuality`, `LowerEngine` | white pre-pass history, marker guard, `Submit` | history equals the last accepted treated target; guarded pairs; spacing and budget |
| `Snapshots` | snapshot pool and the GPU copy protocol | leases balance; a finished copy always converts |
| `Resample`, `Dispatcher`, `CaptureSession` | full-pool obligation, main-thread handoff, admission and accounting | conservation for any schedule; when a slot is admitted late once, and when accounting reconciles, exactly |
| `SparseImage` | sparse encoder, a decoder, the write loop | streaming reproduces the image over any partition |

## How it is modelled

* A mutex-guarded object is a class whose methods are its critical sections. Each method is proved equal
  to a function on a state value; runs are sequences of such sections in any order, so a lemma about
  runs is a lemma about every interleaving. Histories kept only for the proofs are ghost state.
* The vendor engine, the clock, system properties, GPU drawing and executors are inputs: `Submit`'s
  answers, marker readings and delays come from an arbitrary `World`, conversion results, copy results
  and executor schedules from the events of a run.
* Time is an integer. The steady clock never runs back; where the code uses its epoch as "never", the
  clock is positive.
* In-place pixel loops are methods over arrays, proved equal to a pixelwise reference.
* Locked sections that run before a thread is started or after it is joined are ordered the same way in
  the model: the adapter starts after the pipeline has started and stops after its worker is idle.

## Where code and documentation differ

The model follows the code.

* `android/device-eink/include/eink_presentation_adapter.h:139` says `Enqueue` returns false only after
  Stop. The code also refuses before Start and for a frame without a payload or with an invalid rectangle.
* Stop before Start is ignored (`Presentation.StopNeedsStart`), so it is not terminal then.
* `core/include/einklab/eink_capture_admission_policy.h` promises one late replacement per slot. Only the
  last late slot is remembered and a new window forgets it: `CaptureSession.OneLatePerSlot` gives the exact
  runs on which the promise holds, `CaptureSession.SlotAdmittedTwice` and
  `CaptureSession.WindowChangeReadmits` runs on which it does not.
* `CoveragePpm` and `RatioPpm` multiply in 64 bits. `MicroDelta.RatioExactIffNoWrap` gives the exact size
  up to which the ratio is right. The hold's promise reaches further, because the edge band caps what can
  be changed: `MicroDelta.MicroPromiseExact` gives the exact configurations and sizes,
  `MicroDelta.WrapHidesAQuarter` an image pair beyond them.
* Recording a capture outcome clears the expiry mark of a newer obligation
  (`Resample.RecordClobbersReason`). One capture thread, which records or abandons what it took before it
  observes again, excludes it (`Resample.ReasonStaysRight`); a take that returns through the direct source
  is never recorded and counts as abandoned.
* Stop disables presentation without cancelling a pending diagnostic request, unlike `SetEnabled(false)`
  (`DiagnosticRefresh.StopLeavesRequest`; `SleepCycle.StepKeepsQuietExactly` shows it is the only way).
* A sleep image replaces a pending diagnostic request while the request stays busy, so later ones are
  refused (`DiagnosticRefresh.StepFollows`, `DiagnosticRefresh.LostBlocks`).
* A disarm withdraws the pending sleep frame, but a replacement image the conversion worker already
  carries is still delivered (`SleepCycle.DisarmWithdrawsExactly`).
* The direct source's return without output records no copy outcome; reconciliation holds exactly without
  it (`CaptureSession.ReconcilesExactly`).

## Model

| member | source | states |
|---|---|---|
| `GrayPreference.VectorBlockRefinesScalar` | core/src/eink_gray_preference.cpp:63-98 | for both thresholds and every 64-byte block, the vector iteration (skip, all-gray shortcut, table weights, masked blend) equals the scalar treatment of its sixteen pixels |
| `GrayPreference.TableWeight` | core/src/eink_gray_preference.cpp:25-36 | the two byte tables recombine to the full weight for every spread below 64 |
| `GrayPreference.BlendScalar` | core/src/eink_gray_preference.cpp:39-52 | one lane of the blend never wraps in 16 or 32 bits and equals the exact rounded quotient |
| `GrayPreference.MixBetween` | core/src/eink_gray_preference.cpp:116-123 | a faded channel stays between itself and luma |
| `GrayPreference.FadeContracts` | core/src/eink_gray_preference.cpp:113-124 | the fade moves every channel toward luma without passing it and keeps the order of the channels |
| `GrayPreference.ApplyVectors` | core/src/eink_gray_preference.cpp:55-100 | whole 64-byte blocks from the start are treated, the rest is left for the tail |
| `GrayPreference.ApplyScalar` | core/src/eink_gray_preference.cpp:113-124 | the scalar loop treats every pixel from its start to the end, in place |
| `GrayPreference.FadePixel` | core/src/eink_gray_preference.cpp:114-123 | one pixel becomes its faded value, alpha kept |
| `GrayPreference.Apply` | core/src/eink_gray_preference.cpp:104-125 | vector blocks followed by the scalar tail leave the buffer the reference treatment gives |
| `GrayPreference.ApplyPortable` | core/src/eink_gray_preference.cpp:104-125 | the scalar loop alone leaves the same buffer |
| `GrayPreference.ApplyGrayPreference` | core/src/eink_gray_preference.cpp:128-135 | with or without the vector unit the span becomes the same treated buffer; a partial pixel or Original leaves it alone |
| `GrayPreference.ReductionBounds` | core/src/eink_gray_preference.cpp:149-153 | the vivid reduction of a channel is never more than the channel and is zero at the peak |
| `GrayPreference.VividSpreadsColor` | core/src/eink_gray_preference.cpp:143-155 | vivid fixes the peak channel, never underflows, keeps channels strictly ordered and never shrinks the spread |
| `GrayPreference.ApplyVividColor` | core/src/eink_gray_preference.cpp:139-157 | the in-place loop leaves exactly the pixelwise vivid buffer |
| `GrayPreference.VividPixel` | core/src/eink_gray_preference.cpp:144-155 | one iteration of that loop |
| `Grayscale.ConvertToGrayscale` | android/device-eink/src/software_grayscale.cpp:121-172 | nothing exactly for an invalid source or a size the allocation check refuses; otherwise the gathered reference image, for every rotation and layout |
| `Grayscale.ConvertRows` | android/device-eink/src/software_grayscale.cpp:135-152 | the panel-native path gives the reference image of the identity rotation |
| `Grayscale.ConvertScattered` | android/device-eink/src/software_grayscale.cpp:154-170 | scattering every source pixel to its rotated place fills the whole reference image |
| `Grayscale.OriginOfDest` | android/device-eink/src/software_grayscale.cpp:158-167 | the rotated position is in range and the gathering map inverts it |
| `Grayscale.DestOfOrigin` | android/device-eink/src/software_grayscale.cpp:158-167 | the converse: every converted position has one source pixel |
| `Grayscale.AllocationIsSymmetric` | android/device-eink/src/software_grayscale.cpp:91-97 | the size check gives the same answer for the rotated and the unrotated size |
| `Grayscale.TransformFollowsPixels` | android/device-eink/src/software_grayscale.cpp:174-199 | a pixel lies in a valid rectangle exactly when its converted position lies in the transformed one |
| `Grayscale.TransformRoundTrip` | android/device-eink/src/software_grayscale.cpp:174-199 | rotating a valid rectangle and rotating it back gives it back |
| `GrayscaleDelta.MeasureGrayscaleDelta` | core/src/eink_grayscale_delta.cpp:29-63 | the flat scan returns counts and tight box of the differing pixels, and nothing exactly for the refused sizes |
| `GrayscaleDelta.CompareGrayscaleFidelity` | core/src/eink_grayscale_fidelity.cpp:8-47 | the nested scan returns the same count and box, and incomparable exactly for the refused sizes |
| `GrayscaleDelta.ScanNested` | core/src/eink_grayscale_fidelity.cpp:27-45 | the nested loops' count and inclusive corners are those of the differing pixels |
| `GrayscaleDelta.ScansAgree` | core/src/eink_grayscale_delta.cpp:40-62 | flat and nested scan agree on count and box of every comparable pair |
| `GrayscaleDelta.TightBoxIsLeast` | core/src/eink_grayscale_delta.cpp:49-54 | every rectangle covering the differing pixels contains the measured box |
| `GrayscaleDelta.TightBoxIsUnique` | core/src/eink_grayscale_delta.cpp:49-54 | the tight box is determined by the pixels |
| `GrayscaleDelta.DirectionsAddUp` | core/src/eink_grayscale_delta.cpp:43-48 | lighter and darker pixels partition the changed ones |
| `GrayscaleDelta.DirectionMeans` | core/src/eink_grayscale_delta.cpp:15-27 | for a measured pair: unavailable exactly when the images are equal, lighter exactly when no pixel darkens, darker exactly when none lightens |
| `GrayscaleDelta.CountRotates` | android/device-eink/src/software_grayscale.cpp:154-170 | the count of lighter, darker or changed pixels is the same after conversion under any rotation |
| `GrayscaleDelta.BoxRotates` | android/device-eink/src/software_grayscale.cpp:174-199 | the tight box of the rotated pixels is `TransformRect` of the tight box, the empty one included |
| `GrayscaleDelta.MeasureCommutesWithRotation` | core/src/eink_grayscale_delta.cpp:29-63 | measuring the rotated pair gives the same counts and the transformed box as measuring the unrotated pair |
| `MicroDelta.MicroIffFewPixelsAtEdge` | core/src/eink_micro_delta_policy.cpp:64-82 | unless a whole edge band of changed pixels would wrap the 64-bit product (`BandWraps`), micro means exactly: some pixel differs, fewer than the configured share do, the tight box is small, and every differing pixel lies in the edge band |
| `MicroDelta.FewPixelsAreMicro` | core/src/eink_micro_delta_policy.cpp:64-82 | few pixels at the edge are micro on an image of any size, wrapping or not |
| `MicroDelta.MicroPromiseExact` | core/src/eink_micro_delta_policy.cpp:64-82 | for every valid configuration and image size: every micro pair has few pixels at the edge if and only if the band does not wrap |
| `MicroDelta.HoldMeansFewPixels` | core/src/eink_micro_delta_policy.cpp:98-130 | unless the band wraps, a held or repeat-suppressed update has few pixels at the edge |
| `MicroDelta.HoldBreaks` | core/src/eink_micro_delta_policy.cpp:98-130 | for every configuration and size whose band wraps, some image pair without few pixels at the edge is held |
| `MicroDelta.BandFollowsPixels` | core/src/eink_micro_delta_policy.cpp:76-81 | the band test on the box is the band test on every differing pixel |
| `MicroDelta.RatioExactIffNoWrap` | core/src/eink_micro_delta_policy.cpp:13-17 | the parts-per-million test alone is right for all numerators if and only if the image size times 10^6 fits 64 bits |
| `MicroDelta.WrapHidesAQuarter` | core/src/eink_micro_delta_policy.cpp:64-82 | an image pair with a quarter of its pixels changed that passes as micro |
| `MicroDelta.BucketMeans` | core/src/eink_grayscale_delta.cpp:65-72 | while the product of the changed count does not wrap, the coverage bucket is the exact share of changed pixels |
| `MicroDelta.BucketsRightExactly` | core/src/eink_grayscale_delta.cpp:65-72 | for an image size all buckets are exact if and only if the size times 10^6 fits 64 bits |
| `MicroDelta.RunIsCoherent` | core/src/eink_micro_delta_policy.cpp:91-153 | at every public boundary of any run signature, deadline and (deferred or repeat guard) are present together |
| `MicroDelta.ClearingBreaksCoherence` | core/src/eink_micro_delta_policy.cpp:91-96 | clearing an expired repeat breaks that midway exactly when a candidate is deferred in the guard |
| `MicroDelta.ChainKeepsDeadline` | core/src/eink_micro_delta_policy.cpp:116-129 | a chain of equivalent updates of any length never moves the deadline and gets one answer throughout |
| `MicroDelta.HoldWindow` | core/src/eink_micro_delta_policy.cpp:108-129 | a hold opened by a micro update keeps that update's settle deadline through every equivalent one |
| `MicroDelta.RepeatWindow` | core/src/eink_micro_delta_policy.cpp:140-146 | after the expiry submission every equivalent update before the repeat deadline is suppressed |
| `MicroDelta.ChainDrift` | core/src/eink_micro_delta_policy.cpp:84-89 | after n equivalent updates each side of the box is within n move limits of the first |
| `MicroDelta.ChainMayCreep` | core/src/eink_micro_delta_policy.cpp:84-89 | four frames whose differences form a held chain that ends beyond the move limit of its first: equivalence compares with the last update only |
| `MicroDelta.MicroDeltaPolicy.Evaluate` | core/src/eink_micro_delta_policy.cpp:98-130 | decision, state and each counter are those of the specification; coherence, broken by the clearing inside the call, holds again after it |
| `MicroDelta.MicroDeltaPolicy.ClearExpiredRepeat` | core/src/eink_micro_delta_policy.cpp:91-96 | clears exactly an expired guard, with its deadline and candidate |
| `MicroDelta.MicroDeltaPolicy.MarkExpirySubmitted` | core/src/eink_micro_delta_policy.cpp:140-146 | turns a deferred candidate into a repeat guard with a new deadline, otherwise nothing |
| `MicroDelta.MicroDeltaPolicy.Reconfigure` | core/src/eink_micro_delta_policy.cpp:52-62 | true exactly for a valid, different configuration, which is taken; the timed state is kept |
| `MicroDelta.MicroDeltaPolicy.Deadline` | core/src/eink_micro_delta_policy.cpp:136-138 | a deadline is published exactly while a candidate is deferred |
| `MicroDelta.MicroDeltaPolicy.Reset` | core/src/eink_micro_delta_policy.cpp:148-153 | forgets the candidate and both windows |
| `FrameTracker.RgbFrameTracker.Update` | core/src/eink_rgb_frame_tracker.cpp:13-56 | readable input of an allowed size moves the tracker to the new picture, with a new generation exactly when geometry or RGB differ; refused input returns 0 and changes nothing |
| `FrameTracker.RgbFrameTracker.CompareRows` | core/src/eink_rgb_frame_tracker.cpp:29-49 | the or-ed xor over all pixels is zero exactly when the stored picture equals the new one, which replaces it |
| `FrameTracker.RgbFrameTracker.Refuses` | core/src/eink_rgb_frame_tracker.cpp:14-24 | the size, stride and readable-bytes checks |
| `FrameTracker.RgbFrameTracker.Reset` | core/src/eink_rgb_frame_tracker.cpp:7-11 | forgets geometry and content, keeps the generation |
| `FrameTracker.PictureIsRgb` | core/src/eink_rgb_frame_tracker.cpp:31-44 | the compared picture depends on the three colour channels only: stride, padding, alpha and byte order do not matter |
| `FrameTracker.GenerationCounts` | core/src/eink_rgb_frame_tracker.cpp:52-55 | the generation after a run is the start advanced by the number of changes, skipping 0 when it wraps |
| `FrameTracker.SameGenerationMeansUnchanged` | core/src/eink_rgb_frame_tracker.cpp:52-55 | two readings of a live generation agree exactly when the changes between are a multiple of 2^64 - 1, hence, within that many frames, exactly when all frames between are equal |
| `FrameTracker.LockstepFrame` | core/src/eink_frame_demand_gate.cpp:5-24 | one frame through tracker and gate: unchanged exactly when the previous frame had the same geometry and RGB |
| `FrameTracker.UnchangedMeansSame` | android/device-eink/android/src/android_eink_pipeline.cpp:577-606 | over any run of judged frames, frames dropped after the tracker saw them, joint resets and gate-only resets: a frame is compared exactly when an earlier judged one is remembered, and answered unchanged exactly when it has that one's size and the changes since are a multiple of 2^64 - 1; within that many passes, exactly when every frame since has the same geometry and RGB pixels |
| `FrameTracker.StillRemembered` | android/device-eink/android/src/android_eink_pipeline.cpp:577-606 | while nothing is reset the gate holds the last judged frame's signature, and the tracker is its state advanced by exactly the frames since |
| `FrameTracker.FrameDemandGate.Evaluate` | core/src/eink_frame_demand_gate.cpp:5-24 | decision, remembered signature and counters of one evaluation |
| `FrameTracker.FrameDemandGate.Reset` | core/src/eink_frame_demand_gate.cpp:26-29 | the next evaluation is a rearm |
| `Presentation.EveryRun` | android/device-eink/src/eink_presentation_adapter.cpp:37-186 | after every interleaving: accepted = replaced + sleep-cancelled + submitted + in flight + pending + discarded; deferrals split the same way; submissions ordered, fresh, spaced and at most one in flight |
| `Presentation.StepConserves` | android/device-eink/src/eink_presentation_adapter.cpp:52-186 | each critical section keeps the two conservation laws |
| `Presentation.StepSchedules` | android/device-eink/src/eink_presentation_adapter.cpp:66-186 | each critical section keeps order, freshness (newest accepted when taken), origin of the diagnostic request and of the refresh mode, and the distance to every earlier accepted finish |
| `Presentation.RunKeepsCalls` | android/device-eink/src/eink_presentation_adapter.cpp:155-181 | frames handed to the engine are never withdrawn from or reordered in its history |
| `Presentation.StopIsTerminal` | android/device-eink/src/eink_presentation_adapter.cpp:52-64 | after Stop nothing is accepted, pending or newly handed to the engine; at most the call in flight returns |
| `Presentation.StopNeedsStart` | android/device-eink/src/eink_presentation_adapter.cpp:52-57 | Stop before Start does nothing, so a later Start still works |
| `Presentation.RequestStep` | android/device-eink/src/eink_presentation_adapter.cpp:79-111 | one step loses a waiting diagnostic request if and only if it is a newer request, a sleep frame, a cancel or Stop |
| `Presentation.RequestRides` | android/device-eink/src/eink_presentation_adapter.cpp:66-186 | over any run a request not so lost is still waiting or was handed to the engine |
| `Presentation.SlotPredictsWorker` | android/device-eink/src/eink_presentation_adapter.cpp:118-158 | the published slot: a candidate is retained exactly while some accepted frame has no fate yet, and the worker takes it exactly from the published time on |
| `Presentation.PresentationAdapter.StartWorker` | android/device-eink/src/eink_presentation_adapter.cpp:37-50 | the Start section, invariant kept |
| `Presentation.PresentationAdapter.StopWorker` | android/device-eink/src/eink_presentation_adapter.cpp:52-61 | the Stop section, invariant kept |
| `Presentation.PresentationAdapter.EnqueueFrame` | android/device-eink/src/eink_presentation_adapter.cpp:66-93 | the Enqueue section: accepts exactly a usable frame while running, replaces the pending one, passes its request on to an ordinary frame |
| `Presentation.PresentationAdapter.CancelPendingSleepImage` | android/device-eink/src/eink_presentation_adapter.cpp:95-103 | withdraws exactly the pending frame of that epoch |
| `Presentation.PresentationAdapter.CancelPendingDiagnosticRefresh` | android/device-eink/src/eink_presentation_adapter.cpp:105-111 | drops a pending request, keeps the frame |
| `Presentation.PresentationAdapter.OutputSlotState` | android/device-eink/src/eink_presentation_adapter.cpp:118-129 | returns that slot view |
| `Presentation.PresentationAdapter.PollPending` | android/device-eink/src/eink_presentation_adapter.cpp:137-161 | one pass of the wait loop: defers once, or takes the pending frame |
| `Presentation.PresentationAdapter.FinishSubmit` | android/device-eink/src/eink_presentation_adapter.cpp:169-181 | the section after Submit: counters and the start of the next interval |
| `SleepCycle.RunKeepsFrames` | android/device-eink/android/src/android_eink_pipeline.cpp:300-461 | over whole runs accepted epochs strictly rise, each is used at most once, the latch is Inactive exactly when no epoch is active, and no two accepted frames share a sleep epoch |
| `SleepCycle.EveryPipeRun` | android/device-eink/android/src/android_eink_pipeline.cpp:199-548 | every reachable state of pipeline, worker and adapter together: epoch order and single use, no conversion newer than the source, no flash in a cycle or while disabled (until Stop), a real page, and the adapter's conservation, order and spacing |
| `SleepCycle.RunKeepsSound` | android/device-eink/android/src/android_eink_pipeline.cpp:199-548 | each run from any such state stays in it |
| `SleepCycle.DisarmWithdraws` | android/device-eink/android/src/android_eink_pipeline.cpp:440-450 | after the accepted disarm of a directly presented epoch no run ever has a pending frame of it again |
| `SleepCycle.DisarmWithdrawsExactly` | android/device-eink/android/src/android_eink_pipeline.cpp:440-450 | for any epoch that holds if and only if the worker was not carrying its replacement image at the disarm |
| `SleepCycle.HandoverArrives` | android/device-eink/android/src/android_eink_pipeline.cpp:784-867 | a carried replacement reaches the adapter even after its cycle ended |
| `SleepCycle.PresentHolds` | android/device-eink/android/src/android_eink_pipeline.cpp:403-437 | an accepted presentation consumes its epoch, makes its frame the pending one and outdates every unchecked conversion |
| `SleepCycle.DirectCycleHolds` | android/device-eink/android/src/android_eink_pipeline.cpp:403-472 | until the disarm, any run lets at most one more frame into the adapter, and only a conversion that had passed the generation check |
| `SleepCycle.CheckPassesExactly` | android/device-eink/android/src/android_eink_pipeline.cpp:567-638 | a conversion passes the generation check if and only if, since its capture was taken, there was no effective reset and no presentation that claimed its epoch, enqueued or not |
| `SleepCycle.RunMovesGeneration` | android/device-eink/android/src/android_eink_pipeline.cpp:250-261 | over any run the source generation advances by exactly the number of those events, and a conversion keeps the one it was taken under |
| `SleepCycle.RunKeepsNoFlash` | android/device-eink/android/src/android_eink_pipeline.cpp:784-867 | until Stop, while a cycle is active or presentation is disabled, no pending frame carries a diagnostic request |
| `SleepCycle.StepKeepsQuietExactly` | android/device-eink/android/src/android_eink_pipeline.cpp:178-548 | every section, after Stop too, keeps that if and only if it is not Stop on a running pipeline over a pending request |
| `SleepCycle.RunIsQuietExactly` | android/device-eink/android/src/android_eink_pipeline.cpp:178-548 | so a run keeps it throughout exactly when it contains no such Stop |
| `DiagnosticRefresh.StopLeavesRequest` | android/device-eink/android/src/android_eink_pipeline.cpp:211-224 | a run of the fresh pipeline that contains one |
| `DiagnosticRefresh.StepFollows` | android/device-eink/android/src/android_eink_pipeline.cpp:178-548 | for every section: while busy means that the newest request is prepared, pending, in the engine call or unseen by the callback, exactly an accepted presentation or an adapter stop over the pending request ends that; once it is lost, exactly a disabling or an accepted arming ends that |
| `DiagnosticRefresh.BusyMeansLive` | android/device-eink/android/src/android_eink_pipeline.cpp:178-548 | so busy means alive throughout a run exactly when the run loses no request |
| `DiagnosticRefresh.LostBlocks` | android/device-eink/android/src/android_eink_pipeline.cpp:178-187 | and after a loss every request is refused, in any run without a disabling or an accepted arming |
| `DiagnosticRefresh.PresentLosesRequest` | android/device-eink/android/src/android_eink_pipeline.cpp:390-437 | a run of the fresh pipeline in which a sleep image loses the request |
| `DiagnosticRefresh.FreshIsTracked` | android/device-eink/android/src/android_eink_pipeline.cpp:130-149 | what these results start from holds of a fresh pipeline |
| `SleepCycle.RunKeepsPage` | android/device-eink/android/src/android_eink_pipeline.cpp:517-529 | the retained page is the gray image of an ordinary full frame the engine accepted, and the newest such frame of those observed since the last release |
| `SleepCycle.PresentShows` | android/device-eink/android/src/android_eink_pipeline.cpp:339-388 | an accepted sleep image is panel gray, pixelwise between catalog image and page, equal to the image where covering and to the page where transparent; an overlay's page is the newest accepted ordinary full frame observed since the last release |
| `SleepCycle.ArmKeepsEpochs` | android/device-eink/src/eink_sleep_image_latch.cpp:53-73 | arming, and arming with immediate use, keep the epoch order |
| `SleepCycle.JudgeKeepsEpochs` | android/device-eink/src/eink_sleep_image_latch.cpp:84-138 | evaluating a frame uses the active epoch at most once |
| `SleepCycle.OneUse` | android/device-eink/src/eink_sleep_image_latch.cpp:64-73 | an epoch is used directly or by replacement, never both |
| `SleepCycle.Summarize` | android/device-eink/src/eink_sleep_image_latch.cpp:28-49 | minimum, maximum and floored mean of the frame |
| `SleepCycle.SleepImageLatch.ArmSleepCycle` | android/device-eink/src/eink_sleep_image_latch.cpp:53-62 | result and state of arming |
| `SleepCycle.SleepImageLatch.BeginPresentation` | android/device-eink/src/eink_sleep_image_latch.cpp:64-73 | result and state of a direct use |
| `SleepCycle.SleepImageLatch.DisarmSleepCycle` | android/device-eink/src/eink_sleep_image_latch.cpp:75-82 | result and state of disarming |
| `SleepCycle.SleepImageLatch.Evaluate` | android/device-eink/src/eink_sleep_image_latch.cpp:84-138 | decision, state, outgoing buffer and summary for every frame and selector |
| `Pipeline.EinkPipeline.constructor` | android/device-eink/android/src/android_eink_pipeline.cpp:161-172 | a fresh object satisfies the invariant every method keeps |
| `Pipeline.EinkPipeline.Start` | android/device-eink/android/src/android_eink_pipeline.cpp:199-206 | the locked section keeps the invariant; without effect once stopped |
| `Pipeline.EinkPipeline.StartAdapter` | android/device-eink/android/src/android_eink_pipeline.cpp:207-207 | the adapter's start behind it keeps the invariant of both; the adapter runs unless it was stopped |
| `Pipeline.EinkPipeline.Stop` | android/device-eink/android/src/android_eink_pipeline.cpp:211-220 | the locked section keeps the invariant; a running pipeline ends up disabled, with no capture waiting |
| `Pipeline.EinkPipeline.StopAdapter` | android/device-eink/android/src/android_eink_pipeline.cpp:221-223 | the adapter's stop behind it keeps the invariant of both; nothing stays pending and no frame is accepted any more |
| `Pipeline.EinkPipeline.SetEnabled` | android/device-eink/android/src/android_eink_pipeline.cpp:226-248 | keeps the invariant; after a disabling call no diagnostic request is pending in the adapter or prepared |
| `Pipeline.EinkPipeline.ResetForSourceChange` | android/device-eink/android/src/android_eink_pipeline.cpp:250-261 | keeps the invariant; the page is gone, no capture waits, and every conversion before the generation check is older than the source |
| `Pipeline.EinkPipeline.PublishSleepImageCatalog` | android/device-eink/android/src/android_eink_pipeline.cpp:263-298 | keeps the invariant; accepted exactly when valid and newer, the catalog epoch never falls and changes exactly on acceptance |
| `Pipeline.EinkPipeline.ArmSleepCycle` | android/device-eink/android/src/android_eink_pipeline.cpp:300-324 | keeps the invariant; an accepted epoch is above every epoch armed before, and no diagnostic request is left pending or prepared |
| `Pipeline.EinkPipeline.PrepareImage` | android/device-eink/android/src/android_eink_pipeline.cpp:326-388 | every refusal before the latch, in the order of the checks, and exactly the composed frame otherwise |
| `Pipeline.EinkPipeline.ClaimEpoch` | android/device-eink/android/src/android_eink_pipeline.cpp:390-404 | an epoch is either armed and consumed at once or refused with the latch untouched |
| `Pipeline.EinkPipeline.PresentSleepImage` | android/device-eink/android/src/android_eink_pipeline.cpp:326-438 | keeps the invariant; an accepted presentation consumed an epoch never used before, its frame is the pending one, and every unchecked conversion is outdated |
| `Pipeline.EinkPipeline.QueueSleepFrame` | android/device-eink/android/src/android_eink_pipeline.cpp:390-437 | the claimed epoch's frame enters the adapter, or the cycle has ended again |
| `Pipeline.EinkPipeline.DisarmSleepCycle` | android/device-eink/android/src/android_eink_pipeline.cpp:440-461 | keeps the invariant; after an accepted disarm the epoch is withdrawn for good exactly when the worker does not carry its replacement, always for a directly presented one, and the page is gone |
| `Pipeline.EinkPipeline.OnCapturedComposition` | android/device-eink/android/src/android_eink_pipeline.cpp:463-493 | keeps the invariant; a capture waits exactly when one did or this one is taken, and a consumed epoch takes none |
| `Pipeline.EinkPipeline.RequestDiagnosticRefresh` | android/device-eink/android/src/android_eink_pipeline.cpp:178-187 | keeps the invariant; a granted request has a new number, was granted alone, enabled and outside a sleep cycle; otherwise nothing changes |
| `Pipeline.EinkPipeline.CancelDiagnosticRefresh` | android/device-eink/android/src/android_eink_pipeline.cpp:189-197 | keeps the invariant; afterwards that request is not prepared, and any other is untouched |
| `Pipeline.EinkPipeline.TakeCapture` | android/device-eink/android/src/android_eink_pipeline.cpp:567-577 | keeps the invariant; a taken capture carries the current source generation and a sequence below the next one |
| `Pipeline.EinkPipeline.FinishConversion` | android/device-eink/android/src/android_eink_pipeline.cpp:602-631 | keeps the invariant; a failed conversion leaves no prepared request, a good one keeps the generation of its capture |
| `Pipeline.EinkPipeline.CheckGeneration` | android/device-eink/android/src/android_eink_pipeline.cpp:632-638 | keeps the invariant; a conversion goes on exactly when its generation is still the current one, which `SleepCycle.CheckPassesExactly` explains |
| `Pipeline.EinkPipeline.JudgeFrame` | android/device-eink/android/src/android_eink_pipeline.cpp:687-710 | keeps the invariant; a replacement is shown only for an active epoch nothing has used, which it uses, and the worker carries it |
| `Pipeline.EinkPipeline.SelectRefresh` | android/device-eink/android/src/android_eink_pipeline.cpp:784-810 | keeps the invariant; a request goes along only when enabled and outside a cycle, and a replacement is never dropped |
| `Pipeline.EinkPipeline.AssembleFrame` | android/device-eink/android/src/android_eink_pipeline.cpp:826-856 | the delivered frame, its request kept exactly when it still stands |
| `Pipeline.EinkPipeline.DeliverFrame` | android/device-eink/android/src/android_eink_pipeline.cpp:847-867 | keeps the invariant; an accepted frame is the pending one, with the carried replacement's epoch, and lengthens the accepted frames by one; a refused one does not |
| `Pipeline.EinkPipeline.PollAdapter` | android/device-eink/src/eink_presentation_adapter.cpp:137-161 | keeps the invariant of pipeline and adapter together over one pass of the adapter's worker |
| `Pipeline.EinkPipeline.FinishAdapterSubmit` | android/device-eink/src/eink_presentation_adapter.cpp:169-181 | keeps it over the section after the engine's answer |
| `Pipeline.EinkPipeline.OnEngineSubmission` | android/device-eink/android/src/android_eink_pipeline.cpp:517-548 | keeps the invariant; the page never becomes older, and the refresh gate opens only for the answer to the newest request |
| `Pipeline.EinkPipeline.RetainPage` | android/device-eink/src/eink_sleep_image_background.cpp:30-54 | a newer accepted ordinary full panel-gray frame replaces the page, and nothing else changes |
| `Overlay.BlendBounds` | android/device-eink/src/eink_sleep_image_overlay.cpp:52-58 | the blended byte is a panel level between foreground and background, exact at alpha 0 and 255, and within 8 + 127/255 of the exact blend |
| `Overlay.QuantizedIsNearest` | android/device-eink/src/eink_sleep_image_overlay.cpp:16-19 | quantizing picks a nearest of the sixteen panel levels |
| `Overlay.BlendMonotone` | android/device-eink/src/eink_sleep_image_overlay.cpp:52-58 | more alpha never moves the result away from the foreground |
| `Overlay.CompositeBounds` | android/device-eink/src/eink_sleep_image_overlay.cpp:23-71 | whole images: those bounds at every pixel, opaque colours, exact colour where alpha is full or empty |
| `Overlay.OrExpands` | android/device-eink/src/eink_sleep_image_overlay.cpp:60-61 | or-ing in the high nibble expands 0xN0 to 0xNN |
| `Overlay.ComposeSleepImageOverlay` | android/device-eink/src/eink_sleep_image_overlay.cpp:23-71 | the result for every input: both rejections exactly when due, else the reference composite |
| `ColorQuality.AcceptedNeedsNoWhite` | android/device-eink/src/eink_color_quality.cpp:5-33 | preparing the just-accepted target without cleanup whitens nothing, whatever the thresholds |
| `ColorQuality.WhiteSettles` | android/device-eink/src/eink_color_quality.cpp:29-30 | over its own white pre-pass a target needs no further white |
| `ColorQuality.CleanupCoversMore` | android/device-eink/src/eink_color_quality.cpp:20-28 | a forced cleanup covers at least the pixels the history would |
| `ColorQuality.CountZero` | android/device-eink/src/eink_color_quality.cpp:16-32 | the count is zero exactly when no pixel is covered |
| `ColorQuality.ColorQualityHistory.Prepare` | android/device-eink/src/eink_color_quality.cpp:5-33 | count and intermediate image are those of the covered pixels; history untouched |
| `ColorQuality.ColorQualityHistory.Accept` | android/device-eink/src/eink_color_quality.cpp:34-37 | whole pixels become the history, anything else empties it |
| `LowerEngine.StartedMeans` | android/device-eink/include/eink_engine_marker_guard.h:12-25 | the guard reports a start exactly when the submitted and the displayed marker are the one successor of `before`, trackable and in time |
| `LowerEngine.SameWordMeansUnchanged` | android/device-eink/android/src/lower_engine_direct_backend.cpp:219-244 | a word comes back if and only if the effective changes between are a multiple of the number of versions and the value is the same; with fewer changes than versions, however many requests changed nothing, exactly when every request asked for the value held |
| `LowerEngine.VersionCounts` | android/device-eink/android/src/lower_engine_direct_backend.cpp:219-244 | the version counts the effective changes, modulo the number of versions |
| `LowerEngine.ConfigWord.Set` | android/device-eink/android/src/lower_engine_direct_backend.cpp:237-244 | the exchange loop stores the requested value over the last word seen, whatever other threads stored |
| `LowerEngine.RepeatNeedsNoWhite` | android/device-eink/android/src/lower_engine_direct_backend.cpp:707-715 | a frame with the plane and words of the last accepted target gets no white pre-pass |
| `LowerEngine.RateBound` | android/device-eink/android/src/lower_engine_direct_backend.cpp:581-587 | k update calls after another at least k minimum gaps have passed |
| `LowerEngine.WhiteCallSound` | android/device-eink/android/src/lower_engine_direct_backend.cpp:758-788 | a white call keeps spacing and pairing of the log |
| `LowerEngine.TargetCallSound` | android/device-eink/android/src/lower_engine_direct_backend.cpp:809-857 | so does a target call behind a started white, or a single one |
| `LowerEngine.TargetIsHistory` | android/device-eink/android/src/lower_engine_direct_backend.cpp:864-869 | the accepted target is what the history may become, under the stored words |
| `LowerEngine.LowerEngineBackend.Initialize` | android/device-eink/android/src/lower_engine_direct_backend.cpp:358-362 | only once, and failure is final |
| `LowerEngine.LowerEngineBackend.WaitForMarkerStart` | android/device-eink/android/src/lower_engine_direct_backend.cpp:281-304 | the polling loop ends; true only for the started successor marker, otherwise the backend is poisoned with empty history |
| `LowerEngine.LowerEngineBackend.Admit` | android/device-eink/android/src/lower_engine_direct_backend.cpp:553-587 | a frame passes only when initialized, full, enabled, within budget and rate; a refusal issues nothing |
| `LowerEngine.LowerEngineBackend.LoadConfig` | android/device-eink/android/src/lower_engine_direct_backend.cpp:590-599 | any changed word and any sleep frame empties the history |
| `LowerEngine.LowerEngineBackend.Treat` | android/device-eink/android/src/lower_engine_direct_backend.cpp:702-703 | the plane is faded, then vivified, under the frame's words |
| `LowerEngine.LowerEngineBackend.ChooseWhite` | android/device-eink/android/src/lower_engine_direct_backend.cpp:704-715 | which white pre-pass is due |
| `LowerEngine.LowerEngineBackend.SendWhite` | android/device-eink/android/src/lower_engine_direct_backend.cpp:736-788 | one spaced white call, or a poisoned backend |
| `LowerEngine.LowerEngineBackend.SendTarget` | android/device-eink/android/src/lower_engine_direct_backend.cpp:809-857 | a pair's target is sent only with white's marker started and still the latest; a refused call poisons |
| `LowerEngine.LowerEngineBackend.SubmitPair` | android/device-eink/android/src/lower_engine_direct_backend.cpp:716-863 | white then target, adjacent in the log and the configured gaps apart, or a poisoned backend |
| `LowerEngine.LowerEngineBackend.Complete` | android/device-eink/android/src/lower_engine_direct_backend.cpp:864-904 | history, settling time, rate base and end of the finite budget behind an accepted target |
| `LowerEngine.LowerEngineBackend.Submit` | android/device-eink/android/src/lower_engine_direct_backend.cpp:553-915 | keeps: while Initialized a non-empty history equals the treated target of the last call, under the stored words; calls spaced, paired and within the limit; a refused frame issued nothing unless it poisoned; an accepted one issued exactly its white (if due) and its treated target; and an eligible frame whose interval has passed is accepted or poisons, the latter without white only when mapping or update fails |
| `LowerEngine.LowerEngineBackend.SubmitAll` | android/device-eink/android/src/lower_engine_direct_backend.cpp:553-915 | for any number of frames the same holds, and a backend that is not Initialized never calls the engine again |
| `Snapshots.RunCounts` | core/src/eink_snapshot_pool.cpp:22-89 | in every reachable state the live leases are exactly the current leases of the busy slots, none is issued twice, and the busy count is their number |
| `Snapshots.OnlyOwnLeaseFrees` | core/src/eink_snapshot_pool.cpp:57-73 | a busy slot becomes free exactly by ending its own current lease |
| `Snapshots.StaleLeaseIsInert` | core/src/eink_snapshot_pool.cpp:41-46 | a lease of another generation, buffer or range changes nothing |
| `Snapshots.AcquireFailsWhenFull` | core/src/eink_snapshot_pool.cpp:22-39 | an acquire fails exactly when all slots are busy, and then only counts a drop |
| `Snapshots.EndedStaysEnded` | core/src/eink_snapshot_pool.cpp:28-36 | an ended lease is never live again |
| `Snapshots.LiveLeaseCanEnd` | core/src/eink_snapshot_pool.cpp:48-73 | every live lease can be ended and frees its slot |
| `Snapshots.GpuRunOwns` | android/device-eink/android/src/gpu_snapshot_pool.cpp:91-189 | over any interleaving of copies and releases, a release naming slot and generation only, the copies under way own exactly the slots in Copying |
| `Snapshots.FinishedCopyConverts` | android/device-eink/android/src/gpu_snapshot_pool.cpp:163-171 | so the check after the draw cannot fail |
| `Snapshots.FailedCopyMovesOneCounter` | android/device-eink/android/src/gpu_snapshot_pool.cpp:81-176 | with one copying thread and returns at any time: a copy succeeds exactly with a source, a free slot and a drawn image; a failed one moves exactly one of the drop and failure counters |
| `Snapshots.SnapshotPool.TryAcquire` | core/src/eink_snapshot_pool.cpp:22-39 | first free slot with a new generation, or a drop |
| `Snapshots.SnapshotPool.HandOffToConverter` | core/src/eink_snapshot_pool.cpp:48-55 | moves exactly the matching copying slot |
| `Snapshots.SnapshotPool.AbortCopy` | core/src/eink_snapshot_pool.cpp:57-64 | frees exactly the matching copying slot |
| `Snapshots.SnapshotPool.ReleaseAfterConversion` | core/src/eink_snapshot_pool.cpp:66-73 | frees exactly the matching converting slot |
| `Snapshots.SnapshotPool.BusyCount` | core/src/eink_snapshot_pool.cpp:80-89 | the number of slots not free |
| `Snapshots.SnapshotPool.constructor` | core/src/eink_snapshot_pool.cpp:7-20 | a null buffer leaves a pool without slots |
| `Resample.RunConserves` | core/src/eink_full_pool_resample_policy.cpp:24-76 | in every interleaving created = fulfilled + copy failures + cancelled + one if outstanding or awaiting + taken and not yet recorded + taken and abandoned; never both flags |
| `Resample.ReasonKept` | core/src/eink_full_pool_resample_policy.cpp:61-69 | a step leaves the expiry reason right if and only if it is not an outcome recorded while another expired obligation awaits |
| `Resample.ReasonStaysRight` | android/device-eink/android/src/render_surface_capture_session.cpp:829-935 | when nothing is observed while a taken opportunity is neither recorded nor abandoned, the reason is right in every run |
| `Resample.RecordClobbersReason` | core/src/eink_full_pool_resample_policy.cpp:61-63 | without that discipline an expired obligation can be taken as an ordinary resample |
| `Resample.FullPoolResamplePolicy.ObserveFullPool` | core/src/eink_full_pool_resample_policy.cpp:24-38 | decision and state of an observation |
| `Resample.FullPoolResamplePolicy.OnResourceReleased` | core/src/eink_full_pool_resample_policy.cpp:40-52 | decision and state of a release |
| `Resample.FullPoolResamplePolicy.TakeCaptureOpportunity` | core/src/eink_full_pool_resample_policy.cpp:54-59 | decision and state of a take |
| `Resample.FullPoolResamplePolicy.RecordCaptureOutcome` | core/src/eink_full_pool_resample_policy.cpp:61-69 | state after an outcome |
| `Resample.FullPoolResamplePolicy.Cancel` | core/src/eink_full_pool_resample_policy.cpp:71-76 | cancels an open obligation once |
| `Resample.FullPoolResamplePolicy.Reconfigure` | core/src/eink_full_pool_resample_policy.cpp:17-22 | a valid different expiry cancels what is open |
| `Resample.FullPoolResampleBridge.NotifyReleased` | android/device-eink/android/src/render_surface_capture_session.cpp:87-95 | the locked section of a release notification |
| `Resample.FullPoolResampleBridge.RequestFailed` | android/device-eink/android/src/render_surface_capture_session.cpp:97-99 | a refused composition request cancels |
| `Resample.FullPoolResampleBridge.OnResourceReleased` | android/device-eink/android/src/render_surface_capture_session.cpp:87-100 | a whole notification: a refused request leaves no open obligation |
| `Dispatcher.RunConserves` | core/src/eink_main_thread_resample_dispatcher.cpp:28-95 | for any executor: sequences issued = dispatched + cancelled + rejected after posting + one if outstanding; every request has one answer; committed callbacks strictly rise, so none commits twice |
| `Dispatcher.StaleTaskIsInert` | core/src/eink_main_thread_resample_dispatcher.cpp:84-93 | a posted callback changes nothing exactly when stopped, answered or superseded |
| `Dispatcher.NothingAfterStop` | core/src/eink_main_thread_resample_dispatcher.cpp:67-76 | after Stop nothing is issued and no callback commits |
| `Dispatcher.OutstandingStillRuns` | core/src/eink_main_thread_resample_dispatcher.cpp:28-95 | the outstanding sequence survives every other event and commits when its callback runs |
| `Dispatcher.MainThreadResampleDispatcher.BeginRequest` | core/src/eink_main_thread_resample_dispatcher.cpp:28-48 | the section before posting |
| `Dispatcher.MainThreadResampleDispatcher.EndRequest` | core/src/eink_main_thread_resample_dispatcher.cpp:50-64 | the section after posting |
| `Dispatcher.MainThreadResampleDispatcher.StopDispatch` | core/src/eink_main_thread_resample_dispatcher.cpp:67-76 | the Stop section |
| `Dispatcher.MainThreadResampleDispatcher.RunPostedTask` | core/src/eink_main_thread_resample_dispatcher.cpp:84-95 | the posted callback's section and whether the action runs |
| `CaptureSession.ReconcilesExactly` | core/src/eink_capture_pressure_accounting.cpp:79-91 | over any number of calls the accounting reconciles if and only if no attempt ended in the direct source's return without output, and is short of exactly that many outcomes |
| `CaptureSession.ShortfallIsDirectReturns` | android/device-eink/android/src/render_surface_capture_session.cpp:885-914 | the shortfall stays the same exactly when no call takes that return |
| `CaptureSession.CallBalances` | android/device-eink/android/src/render_surface_capture_session.cpp:745-955 | one call keeps the exact balance |
| `CaptureSession.CallIsAttributed` | android/device-eink/android/src/render_surface_capture_session.cpp:835-955 | one call's share in attempts, occupancy, full-pool, resample and outcome counters |
| `CaptureSession.ReconciledMeans` | core/src/eink_capture_pressure_accounting.cpp:79-91 | reconciled is exactly: no opportunity owed, no attempt open, none unexplained, none unplaced |
| `CaptureSession.OutcomeIsAlwaysRead` | android/device-eink/android/src/render_surface_capture_session.cpp:915-949 | the counters around a copy always give exactly one outcome, the true one |
| `CaptureSession.SkippedMeans` | core/src/eink_capture_admission_policy.cpp:26-54 | a candidate is skipped exactly while retained, its slot closed, and the late window not open or already spent |
| `CaptureSession.OneLatePerSlot` | core/src/eink_capture_admission_policy.cpp:45-50 | from a gate that remembers no slot, no slot is admitted late twice if and only if, between two in-window questions for a slot, the window does not change and no in-window question asks for another slot |
| `CaptureSession.RisingSlotsAreContiguous` | core/src/eink_capture_admission_policy.cpp:26-54 | which holds under one window while slots do not move back |
| `CaptureSession.SlotAdmittedTwice` | core/src/eink_capture_admission_policy.cpp:45-50 | a slot that moves away and back is admitted late twice |
| `CaptureSession.WindowChangeReadmits` | core/src/eink_capture_admission_policy.cpp:18-24 | and so is a slot when the window changes between |
| `CaptureSession.CallsAskTheGate` | android/device-eink/android/src/render_surface_capture_session.cpp:826-841 | over any calls the gate goes through exactly one window and at most one question a call |
| `CaptureSession.CaptureAdmissionPolicy.Evaluate` | core/src/eink_capture_admission_policy.cpp:26-54 | decision, reason and counters |
| `CaptureSession.CaptureAdmissionPolicy.Reconfigure` | core/src/eink_capture_admission_policy.cpp:18-24 | a valid different window reopens the slot |
| `CaptureSession.CapturePressureAccounting.RecordOpportunity` | core/src/eink_capture_pressure_accounting.cpp:7-26 | an opportunity is owed an attempt or deferral exactly unless skipped; the other gaps stay |
| `CaptureSession.CapturePressureAccounting.RecordAttempt` | core/src/eink_capture_pressure_accounting.cpp:28-43 | one owed opportunity becomes one open attempt; the other gaps stay; full-pool attribution |
| `CaptureSession.CapturePressureAccounting.RecordFullPoolDeferred` | core/src/eink_capture_pressure_accounting.cpp:45-51 | one owed opportunity is settled and no attempt opened |
| `CaptureSession.CapturePressureAccounting.RecordResampleAttempt` | core/src/eink_capture_pressure_accounting.cpp:53-55 | one attempt opens without an opportunity |
| `CaptureSession.CapturePressureAccounting.RecordOutcome` | core/src/eink_capture_pressure_accounting.cpp:57-67 | one open attempt is settled |
| `CaptureSession.CapturePressureAccounting.HasReconciledAccounting` | core/src/eink_capture_pressure_accounting.cpp:79-91 | true exactly when all four gaps are zero |
| `CaptureSession.RenderSurfaceCaptureSession.CaptureM3` | android/device-eink/android/src/render_surface_capture_session.cpp:826-955 | one call's whole effect on admission, accounting and counters; the exact balance is kept |
| `CaptureSession.RenderSurfaceCaptureSession.Attempt` | android/device-eink/android/src/render_surface_capture_session.cpp:872-949 | the attempt, the direct return without output, and the copy outcome |
| `SparseImage.ParsePacked` | tools/device/sparse_image.py:31-33 | parsing a packed chunk gives it back with what follows |
| `SparseImage.FlashEncoded` | tools/device/sparse_image.py:29-34 | a file packed from chunks that fill the image flashes to exactly their effect |
| `SparseImage.ZeroRun` | tools/device/sparse_image.py:19-24 | a run of zero blocks is what FILL leaves |
| `SparseImage.WritesMore` | tools/device/sparse_image.py:23-25 | appending a run's chunk extends what the list writes by that run |
| `SparseImage.SkipAfter` | tools/device/sparse_image.py:26-28 | the trailing SKIP changes nothing |
| `SparseImage.NextRun` | tools/device/sparse_image.py:19-24 | the inner loop finds a maximal run and its chunk leaves exactly the run's bytes |
| `SparseImage.RunAddsLong` | tools/device/sparse_image.py:19-25 | a run that starts at a change between zero and non-zero blocks is judged by itself |
| `SparseImage.RegionChunks` | tools/device/sparse_image.py:13-28 | the chunks cover the whole image, write exactly the region, are few, and one body is too long exactly when the data has such a stretch |
| `SparseImage.Pack` | tools/device/sparse_image.py:29-34 | packing succeeds exactly when every field fits |
| `SparseImage.EncodeRegion` | tools/device/sparse_image.py:7-34 | flashing the encoding over any partition of the image's size writes exactly the region and keeps the rest; each error exactly when due, out of range meaning an image size past 32 bits or a stretch without zero blocks too long for one chunk; a size bound |
| `SparseImage.WriteRegion` | tools/device/promote-system-a.py:88-99 | one iteration writes exactly the data read, or stops with the one possible error |
| `SparseImage.WriteImage` | tools/device/promote-system-a.py:83-103 | the loop succeeds exactly when the file has the named size and digest, and then the partition is the file; on every other outcome it holds a written prefix and its old tail; size limit and decoder are never the reason |
| `SparseImage.RegionWritten` | tools/device/promote-system-a.py:88-99 | written regions join up to a prefix |

## Left out

- Vendor engine, dynamic linking, relocation patching, GPU drawing, fences, buffer locking: foreign code, only their answers are inputs.
- Binder services, property reads, sysfs writes, logging, diagnostics formatting: plumbing; property values are inputs, and those `LowerEngine` treats as constants of a run are the minimum interval, the submission limit and the continuous switch.
- Monochrome `Submit`: the row interleaver and the null colour plane; `LowerEngine` models the colour panel, the only one with history and pairs.
- Submission observer and completion timeout of the lower backend: bookkeeping that decides nothing.
- Kaleido mapping and its gray plane: the log records the treated input of the mapping, not its vendor output.
- The delays of one Submit are added at each clock read, sleep and engine call; time spent elsewhere in the call is folded into the next one.
- Counters that only report (diagnostics of the pipeline, adapter, pool, policies, accounting) are unbounded; their 64-bit wrap is not modelled. Generations of the RGB tracker and configuration words are modelled with their wrap; pool generations, sequences and epochs are unbounded.
- Conversion-time samples of the pressure accounting and the delta, hash and gray diagnostics of the pipeline: they feed no decision.
- Pipeline.EinkPipeline.QueueSleepFrame: the composition buffer of a monochrome frame that owns no snapshot is not told apart from none.
- Pipeline.EinkPipeline.PollAdapter: the adapter's worker loop is ordered by the pipeline's events, not by a thread; the pipeline's plain fields are one record, because a section changes several at once.
- FrameTracker.UnchangedMeansSame: frames the tracker refuses for their size, and a directly converted gray image whose size differs from the snapshot's, are not passes of a run.
- SleepCycle.DirectCycleHolds: bounds the ordinary frames that may follow a sleep frame by one; it does not claim there are none, because the generation is not checked again at the enqueue.
- CaptureSession.RenderSurfaceCaptureSession.CaptureM3: the bridge's and the pool's answers are inputs, so the conservation of obligations and leases is proved in `Resample` and `Snapshots` under every interleaving and not repeated here; the returns before admission are one flag.
- Resample.FullPoolResampleBridge.OnResourceReleased: a notification no other thread interrupts; interleaved ones are the two sections in `Resample.RunConserves`.
- SparseImage.WriteImage: the digest is an arbitrary function and every download and flash command succeeds; device faults, preflight checks, receipts and the final readback are not modelled.
- FNV fingerprints, arm gate, geometry gate, one-shot engine, mode policy, idle gate, front light, user interface, and the other device tools: settled by reading one branch or one loop, or no claim is possible.
- The gray-plane frame tracker and the copies of these classes in other namespaces: same logic as the modelled ones.
- A failed allocation of an output image: the size check is modelled, running out of memory is not.
