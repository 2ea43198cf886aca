# Verified model of the hardware composer's buffer, fence and timing protocols

This project models the parts of the composer whose correctness is an invariant over whole
runs, and proves them with Dafny. `dafny verify dfyconfig.toml` checks everything.

Where the program updates objects in place, the model is a class with the program's fields
and methods, and each method is proved against a function on values. The runs, interleavings
and protocols are then proved about those functions.

| part | files |
|---|---|
| Video-tunnel layer: queue of frames, current and on-screen frame, late-frame policy, commands, flushes | `LayerSpec`, `Hwc2Layer`, `LateFrames`, `DueFrames`, `LayerRuns` |
| Which fence a frame goes back with, from the display to the driver | `PresentedFences`, `PresentedAccounts` |
| Tunnel instance: acquiring, reference counting, returning buffers with merged fences | `DrmSync`, `VtInstance`, `BufferLedger` |
| Instance and layers as one system of atomic steps | `TunnelProtocol`, `TunnelTheorems`, `DisturbedDeliveries`, `DisturbedRuns` |
| The end of an instance, and buffers that stay until then | `InstanceEnd`, `RefusedBuffers` |
| The display thread's game-mode drain loop | `VtDisplayThread` |
| Video processor pools, the ownership of fence descriptors, and who gets which fence | `ProcessorPools`, `FenceFds`, `FenceCalls`, `VideoProcessorsManager` |
| The vdin capture thread and its six buffers | `VdinSpec`, `VdinPostProcessor`, `VdinRuns` |
| The AI-colour ring between two threads | `AiColorRing`, `AiColorProcessor` |
| Software and mixed vsync timestamps | `CArithmetic`, `VsyncSpec`, `HwcVsync`, `VsyncRuns`, `VsyncReports` |
| Bitmap and layer ids | `BitsMap`, `LayerIds` |
| Calibration of display frames | `Calibration` |
| HWC and SurfaceFlinger mode lists | `ModeLists`, `ActiveModeMgr` |

Conventions. A tunnel frame has an identity (its place in arrival order) besides its
descriptor, because descriptors are reused. Answers of drivers, `dup`, `sync_merge`, clocks
and consumers are parameters, so a theorem holds for every answer unless it names an
assumption. Integers are unbounded; C++ division that truncates is written out. Floating
point is replaced by exact arithmetic.

## What the code does where it could be expected to do otherwise

Each of these is stated as a theorem with its exact condition, or as a concrete case.

- A flush that keeps the frame on screen (HOLD_FRAME) still sets `mQueuedFrames` to zero, so the counter is exact only without it (`StepCountIff`, `HoldFrameRun`).
- A tunnel layer that is turned into a colour or another sideband is neither a tunnel layer nor marked for release; the flush of teardown then leaves its frames with it (`FullFlushEmptiesIff`, `NonTunnelFlushRun`).
- A frame shown without a presentation goes back with the fence of an earlier one; a presented current frame that is dropped as late goes back with none; and clearing a layer that shows a frame but is no tunnel layer replaces the frame's fence (`StepProperIff`, `EveryRunProperIff`, `StaleFenceRun`).
- A connect that failed leaves its consumer object behind, so the next tunnel counts as joined without an attempt (`SetTunnelSucceedsIff`, `FailedConnectIsForgotten`).
- With two or more consumers, a layer that hands back, as the only holder, a buffer still being offered can make another consumer hold a returned buffer, or leave a buffer queued at count zero (`EveryRunIff`, `HandBackHarmsIff`, `EarlyReturnRun`, `OrphanRun`); a flush of two buffers can do both at once, and then no answer of the other consumers is right (`SplitFlushRun`).
- When the driver reports an error in the middle of `acquireBuffer`, the buffers already taken stay queued at count -1 and are offered to nobody (`AcquireBuffer`).
- Before the manager destroys an instance it disconnects it, which forgets the tunnel: whatever is still queued is released to tunnel -1 (`CleanUpAccount`, `AllGoHomeIff`, `StrayRun`), also what a layer holds that was erased as a consumer by a refusal (`HeldRun`).
- A failed merge replaces the pending fence by nothing, a failed status read replaces it by the report, a status that changes between the reads drops the report, and a failed duplicate hands out no fence (`RecordCoversIff`, `ReleaseCoversIff`, `ReleaseFenceIsNeverEarlyIff`).
- When a duplicate or the merge fails, the fence left with a processed layer misses the last processor's fence, the composer's, or both (`LeftCoversIff`).
- The teardown loop of the super-resolution pool compares with `begin()` and tears nothing down; the pool is only emptied (`TearDownSrProcessors`).
- `setFbProcessor` called while the vdin post-processor is stopped leaves a null request behind, and from then until the next stop every request is served one late (`AskTakesEffectIff`, `RestartFacts`, `ServedLate`).
- After one screen capture the vdin thread captures continuously until another command arrives (`ScreenCommandRunsOn`, `ScreenCaptureRunsOn`).
- The vdin driver always keeps a buffer without having to refuse: a pass never asks for its last one (`TwoBeforeCapture`).
- The AI-colour counters do not agree after a teardown that met a failed duplicate or a driver error (`CountersAgreeIff`).
- The bitmap for 256 layers has 264 bits, so a 257th live layer gets a slot that does not fit into its id; created in a row, it gets the id of the first and is not entered (`CreateWhenFull`, `TheNextOneIsLost`).
- A display controller set while the mixed vsync waits for the old one's vblank is not waited for, and no rebase stays pending (`LateSwitchIsLost`).
- The bitmap search needs `char` to be unsigned (`SignedSearchIff`).
- Where no scaling is needed the calibration offset is not applied either (`WholeFrameFillsRectIff`).
- When the list has the name of the mode in use but not its rate, the HWC active id is that of the last mode (`ActiveIsRightIff`).

## Model

| member | source | states |
|---|---|---|
| `DrmSync.CoversMeansNeverEarly` | common/base/DrmSync.cpp:62-87 | A fence covers a set of reported points if and only if it cannot signal, now or at any later time, before all of them have |
| `DrmSync.RecordCoversIff` | common/videotunnel/VtInstance.cpp:53-71 | One consumer report keeps the accumulated fence from signalling early if and only if no failing branch drops an unsignalled point: a pending fence whose status reads as an error is replaced, one whose status changes between the reads ignores the report, a failed merge drops both |
| `DrmSync.ReleaseCoversIff` | common/videotunnel/VtInstance.cpp:53-71 | Any number of reports in any order, time passing in between and any call failing: the fence handed to the driver covers every report if and only if every dropped point not reported again has signalled, and the duplicate works or the fence has signalled |
| `DrmSync.WorkingCallsLoseNothing` | common/videotunnel/VtInstance.cpp:53-71 | Where every status read, merge and duplicate works, nothing is dropped |
| `LayerSpec.UpdateKeepsWf` | hwc2/Hwc2Layer.cpp:564-640 | After an update the current frame is still the head of the queue |
| `LayerSpec.ReleaseKeepsWf` | hwc2/Hwc2Layer.cpp:642-718 | Promotion keeps the current frame, if any, at the head of the queue, and a layer without tunnel holds nothing |
| `LayerSpec.FlushKeepsWf` | hwc2/Hwc2Layer.cpp:749-804 | A flush, with or without disconnecting, keeps that invariant |
| `LayerSpec.SetTunnelKeepsWf` | hwc2/Hwc2Layer.cpp:259-325 | Moving to another tunnel keeps that invariant, whether or not the new consumer connects |
| `LayerSpec.SetTunnelSucceedsIff` | hwc2/Hwc2Layer.cpp:259-325 | Setting a tunnel succeeds if and only if the layer is on it already, or a new consumer connects, or a consumer object is left over while the layer is on no tunnel; the last without any instance knowing the layer |
| `LayerSpec.FailedConnectIsForgotten` | hwc2/Hwc2Layer.cpp:878-916 | After a connect that failed the layer counts as joined to the next tunnel it is given, without an attempt to connect |
| `TunnelLayer.Hwc2Layer.ShouldPresentNow` | hwc2/Hwc2Layer.cpp:833-847 | A frame is due before its expected time, in game mode, without a timestamp, or when its timestamp is implausibly far ahead |
| `TunnelLayer.Hwc2Layer.GetBufferFd` | hwc2/Hwc2Layer.cpp:543-562 | The processed fd first, else for a tunnel layer the current frame when it is new and due and the one on screen otherwise |
| `TunnelLayer.Hwc2Layer.OnVtFrameDisplayed` | hwc2/Hwc2Layer.cpp:947-960 | A connected layer hands the frame and its fence to the instance and passes its answer on, another one hands nothing and answers -1 |
| `TunnelLayer.Hwc2Layer.OnVtFrameAvailable` | hwc2/Hwc2Layer.cpp:962-1003 | Delivered frames are appended in order and counted; a layer that is no tunnel layer or has no tunnel refuses them all |
| `TunnelLayer.Hwc2Layer.SetPresentTime` | hwc2/Hwc2Layer.cpp:814-831 | The expected time is taken over in microseconds by tunnel layers only |
| `TunnelLayer.Hwc2Layer.UpdateVtBuffer` | hwc2/Hwc2Layer.cpp:564-640 | The two loops that count and drop late frames, in place, do exactly what the value specification says, including what goes back, in which order, and whose timestamp decides from then on |
| `TunnelLayer.Hwc2Layer.ReleaseVtBuffer` | hwc2/Hwc2Layer.cpp:642-718 | A due new frame replaces the one on screen, which goes back with the previous release fence (its own: `PresentedFences.StepProperIff`) and whose consumer gives the answer; otherwise nothing is shown and the answer says why |
| `TunnelLayer.Hwc2Layer.ReleaseVtResource` | hwc2/Hwc2Layer.cpp:729-804 | The flush hands back the frame on screen (unless kept), the current one and the queue, in that order, each with its fence, and leaves the whole state specified |
| `TunnelLayer.Hwc2Layer.FreeSolidColorBuffer` | hwc2/Hwc2Layer.cpp:1102-1121 | Freeing the colour buffer clears the pending-update flag and the fence, and does nothing without a buffer |
| `TunnelLayer.Hwc2Layer.GetSolidColorBuffer` | hwc2/Hwc2Layer.cpp:1123-1141 | A colour buffer is duplicated only for a refreshed tunnel layer in a colour state |
| `TunnelLayer.Hwc2Layer.OnNeedShowTempBuffer` | hwc2/Hwc2Layer.cpp:1218-1258 | A colour buffer that exists or could be made raises the update flag |
| `TunnelLayer.Hwc2Layer.IsVtNeedClearFrameOrShowColorBuffer` | hwc2/Hwc2Layer.cpp:1143-1184 | Each of the seven commands flushes, keeps or frees what it should, and blanking happens once |
| `TunnelLayer.Hwc2Layer.InterruptVtProcess` | hwc2/Hwc2Layer.cpp:1186-1216 | After the command is handled the plane is blanked, shows colour or carries on as decided from the buffers left |
| `TunnelLayer.Hwc2Layer.SetBuffer` | hwc2/Hwc2Layer.cpp:152-180 | An ordinary buffer turns a tunnel layer into one that is marked for release |
| `TunnelLayer.Hwc2Layer.ClearBufferInfo` | common/base/DrmFramebuffer.cpp:151-186 | Clearing drops the tunnel type; only a non-tunnel layer moves its fences |
| `TunnelLayer.Hwc2Layer.ClearUpdateFlag` | hwc2/Hwc2Layer.cpp:444-449 | A layer marked for release is flushed and disconnected |
| `TunnelLayer.Hwc2Layer.SetSidebandStream` | hwc2/Hwc2Layer.cpp:259-325 | A new channel flushes the old tunnel before joining the new one; the same channel keeps the frames; a negative one is refused |
| `TunnelLayer.Hwc2Layer.RegisterConsumer` | hwc2/Hwc2Layer.cpp:878-916 | A consumer that connects starts with an empty queue and a zero count; one that does not leaves the layer without tunnel |
| `LateFrames.UpdateKeepsNewest` | hwc2/Hwc2Layer.cpp:581-619 | With no assumption on timestamps an update never empties the queue, keeps the newest frame, drops from the old end only and makes the new head current |
| `LateFrames.DropsExactlySupersededIff` | hwc2/Hwc2Layer.cpp:581-619 | An update drops exactly the expired frames that have a newer expired one behind them if and only if no good frame is queued ahead of such a frame |
| `LateFrames.LateFramePolicy` | hwc2/Hwc2Layer.cpp:581-619 | Outside game mode with positive, ordered timestamps less than a second ahead: the due frames except the newest due one are dropped, and that one is the new head |
| `LateFrames.GameModeDropsNothing` | hwc2/Hwc2Layer.cpp:833-847 | In game mode no frame is ever dropped as late |
| `DueFrames.ShownOnlyWhenRipe` | hwc2/Hwc2Layer.cpp:671-718 | Over any run a frame comes on screen only by a release, and only in game mode or when its own timestamp is absent, before the expected time, or a second or more after it |
| `DueFrames.UpdateThenRelease` | hwc2/Hwc2Layer.cpp:620-718 | After an update a release shows the head of the queue if and only if the timestamp of the head itself allows it, with or without a refresh pending; otherwise screen and queue stay |
| `DueFrames.OfferedIsShown` | hwc2/Hwc2Layer.cpp:543-562 | What a tunnel layer offers for display between an update and the next release is the frame that release leaves on screen: the head if it may be shown, the old frame if not |
| `DueFrames.PresentTimeUnit` | hwc2/Hwc2Layer.cpp:814-831 | A timestamp in microseconds is before the time set in nanoseconds if and only if it is by a full microsecond, or by less for times before zero |
| `DueFrames.MarkedIsCleared` | hwc2/Hwc2Layer.cpp:444-449 | At the end of a frame a layer marked for release hands back everything it holds, in order, and leaves its tunnel; another one keeps everything |
| `DueFrames.OrdinaryBufferEndsTunnel` | hwc2/Hwc2Layer.cpp:152-180 | So an ordinary buffer set on a connected tunnel layer ends its tunnel with that frame, with nothing left behind |
| `DueFrames.ClearingDecides` | hwc2/Hwc2Layer.cpp:1143-1216 | Blanking and hiding drop every frame and blank the plane; blanking happens once |
| `DueFrames.DroppingDecides` | hwc2/Hwc2Layer.cpp:1143-1216 | A colour command replaces the video by colour if there is a colour buffer; holding keeps exactly the frame on screen and shows it |
| `DueFrames.ShowingDecides` | hwc2/Hwc2Layer.cpp:1166-1216 | Without such a command video is shown whenever there is a frame to show, else colour, else the plane is blanked unless the tunnel has just changed |
| `DueFrames.TunnelAwaitsFirstFrame` | hwc2/Hwc2Layer.cpp:612-633 | Over any run the flag that keeps the plane from being blanked is set exactly from joining a tunnel until an update finds a frame that may be shown |
| `LayerRuns.StepSheds` | hwc2/Hwc2Layer.cpp:729-804 | Every operation that brings no frame and shows none cuts one block out of the frames held, hands back exactly that block in order, and trims the queue from its old end |
| `LayerRuns.ReleaseShows` | hwc2/Hwc2Layer.cpp:675-717 | A promotion shows exactly the head of the queue and hands back exactly the frame it replaces |
| `LayerRuns.DeliverAdds` | hwc2/Hwc2Layer.cpp:962-1003 | A delivery adds exactly the accepted frames at the end and hands nothing back |
| `LayerRuns.EveryRun` | hwc2/Hwc2Layer.cpp:543-804 | The layer invariant holds after any run of deliveries, updates, releases, flushes, commands and tunnel changes |
| `LayerRuns.FramesAreConserved` | hwc2/Hwc2Layer.cpp:564-804 | After any run every accepted frame is held once or has been handed back once, and nothing else is held or was handed back |
| `LayerRuns.ShownInArrivalOrder` | hwc2/Hwc2Layer.cpp:675-717 | Over any run frames come on screen in arrival order and none twice, across flushes and reconnects; the one on screen is the last shown |
| `LayerRuns.DisplayedIsHeld` | hwc2/Hwc2Layer.cpp:543-562 | After any run a tunnel fd offered for display is one the layer still holds |
| `LayerRuns.StepCountIff` | hwc2/Hwc2Layer.cpp:749-804 | An operation keeps `mQueuedFrames` equal to the number of frames held if and only if it is not a flush that keeps a frame on screen |
| `LayerRuns.QueuedFramesIsHeldCount` | hwc2/Hwc2Layer.cpp:749-804 | In every run without HOLD_FRAME the counter equals the number of frames held |
| `LayerRuns.HoldFrameRun` | hwc2/Hwc2Layer.cpp:749-804 | A run from the start in which HOLD_FRAME keeps one frame on screen while the counter says 0 |
| `LayerRuns.FullFlushEmptiesIff` | hwc2/Hwc2Layer.cpp:749-804 | The flush of teardown empties a layer if and only if it holds nothing, is a tunnel layer or is marked for release: one turned into a colour keeps its frames |
| `LayerRuns.NonTunnelFlushRun` | hwc2/Hwc2Layer.cpp:749-804 | A run of four operations from the start after which the flush of teardown leaves a frame with a connected layer |
| `PresentedFences.StepProperIff` | hwc2/Hwc2Layer.cpp:642-804 | An operation hands the frame on screen back with the fence of its own presentation, the current one with the fence the display set last, a merely queued one with none, and keeps the layer's fences in line with the history, if and only if it neither shows a frame without a presentation while an older fence is kept, nor drops a presented current frame as late, nor clears a layer that shows a frame without being a tunnel layer |
| `PresentedFences.EveryRunProperIff` | hwc2/Hwc2Layer.cpp:642-804 | Over any run this holds of every operation if and only if no operation is one of these three |
| `PresentedFences.StaleFenceRun` | hwc2/Hwc2Layer.cpp:871-876 | A run from the start in which the second frame, never presented, goes back with the fence of the first |
| `TunnelInstance.FindFd` | common/videotunnel/VtInstance.cpp:40-50 | The item worked on is the first with that fd, or none exists |
| `TunnelInstance.VtBufferItem.Report` | common/videotunnel/VtInstance.cpp:53-71 | A reported fence replaces one that has signalled or reads as an error, is merged with a pending one, and is ignored when the status changes between the reads; what is dropped is recorded |
| `TunnelInstance.VtInstance.OnFrameDisplayed` | common/videotunnel/VtInstance.cpp:34-79 | The item found records the fence and drops a reference; at zero it leaves the queue for the driver with the accumulated fence, and otherwise every other item is untouched |
| `TunnelInstance.VtInstance.AcquireBuffer` | common/videotunnel/VtInstance.cpp:152-206 | New buffers are queued in order with the number of consumers that took them as count; refusing consumers are erased in place; a driver error leaves the buffers queued with count -1 |
| `TunnelInstance.VtInstance.OfferToConsumers` | common/videotunnel/VtInstance.cpp:176-205 | The loop over consumers that erases while it advances keeps exactly the consumers that accept, in order |
| `TunnelInstance.VtInstance.ReleaseInstanceBuffers` | common/videotunnel/VtInstance.cpp:218-235 | Every buffer still queued is released without a fence, in order, under the tunnel id the instance has at that moment |
| `TunnelInstance.VtInstance.CleanUp` | common/videotunnel/VtInstanceMgr.cpp:107-129 | The manager disconnects an instance before it destroys it, so all buffers still queued are released to tunnel -1 |
| `BufferLedger.GiveOneKeepsBooks` | common/videotunnel/VtInstance.cpp:34-79 | A layer that hands back a frame it holds keeps the accounts, and the frame leaves the queue if and only if no other layer holds it and no counted offer of it is pending |
| `BufferLedger.AcquireKeepsBooks` | common/videotunnel/VtInstance.cpp:152-175 | So does acquiring buffers with unused descriptors |
| `BufferLedger.RefKeepsBooks` | common/videotunnel/VtInstance.cpp:176-205 | Counting any item of an offer up, and down after a refusal, one by one or together, keeps the accounts with the references pending in between |
| `BufferLedger.AcceptKeepsBooks` | common/videotunnel/VtInstance.cpp:176-205 | When an offer is taken its pending references become the layer's |
| `BufferLedger.OneFate` | common/videotunnel/VtInstance.cpp:34-79 | Every acquired buffer is queued or has gone back once, never both, and one that has gone back is held by nobody |
| `TunnelProtocol.StepKeepsInvIff` | common/videotunnel/VtInstance.cpp:34-206 | Every count of an item, offer, hand-back of one frame, layer step, join, leave or signal, with any call failing, keeps the system invariant if and only if it is neither an offer taken after one of its buffers went back, nor the end of a delivery after a refusal while a buffer taken before has no holder |
| `TunnelProtocol.LayerStepHands` | hwc2/Hwc2Layer.cpp:564-804 | A layer's own step lets go of frames it held, each once, keeps the rest, and leaves a tunnel only empty-handed |
| `TunnelTheorems.EveryRun` | common/videotunnel/VtInstance.cpp:34-206 | The system invariant holds after every run without such a step |
| `TunnelTheorems.EveryRunIff` | common/videotunnel/VtInstance.cpp:34-206 | In a run of steps the surroundings allow, with any number of consumers, the invariant holds after every step if and only if no step is of that kind |
| `TunnelTheorems.SingleConsumerRun` | common/videotunnel/VtInstance.cpp:34-206 | With at most one consumer no interleaving contains such a step: the invariant survives every one |
| `TunnelTheorems.CountIsHolders` | common/videotunnel/VtInstance.cpp:34-206 | After any such run, between deliveries, a queued buffer's count is the number of layers that hold it or have still to hand it back, and a buffer some layer has accepted is queued only while there is one |
| `TunnelTheorems.EachBufferReturnsOnce` | common/videotunnel/VtInstance.cpp:34-79 | After any such run a buffer has gone back to the driver if and only if it is no longer queued, at most once, to its own tunnel, and then no layer holds it |
| `TunnelTheorems.ReleaseFenceIsNeverEarlyIff` | common/videotunnel/VtInstance.cpp:208-216 | After any such run the fence returned with a buffer cannot signal, now or later, before every fence reported for it, if and only if every point a failing call dropped, and not reported again, has signalled |
| `TunnelTheorems.WorkingRunLosesNothing` | common/videotunnel/VtInstance.cpp:53-71 | In a run where every system call works no point is ever dropped |
| `PresentedAccounts.PresentationIsReported` | common/videotunnel/VtInstance.cpp:34-79 | In any run of instance and layers without such an operation: from the moment a layer lets go of a frame, the points of its presentation are with the hand-back that is due or among those reported for its buffer |
| `PresentedAccounts.ReturnCoversPresentation` | common/videotunnel/VtInstance.cpp:208-216 | So the fence the driver gets with a buffer cannot signal before any presentation of it, on any layer, is over, once what failing calls dropped has signalled |
| `TunnelTheorems.UninterruptedDelivery` | common/videotunnel/VtInstance.cpp:152-206 | An uninterrupted delivery of the step machine, item by item and consumer by consumer, is one call of the instance's method: same queue, counts and consumer list |
| `DisturbedDeliveries.RestOfDeliveryIff` | common/videotunnel/VtInstance.cpp:176-205 | From any point of a delivery that is not disturbed further: the invariant holds at its end if and only if nobody takes the offer after a buffer of it went back, and somebody takes it after one was left without holder |
| `DisturbedDeliveries.HandBackEffect` | common/videotunnel/VtInstance.cpp:34-79 | One hand-back during a delivery matters only when the layer is the sole holder of a buffer on offer: if that is not yet counted for the next consumer it goes back, otherwise it stays without holder |
| `DisturbedDeliveries.HandBackHarmsIff` | common/videotunnel/VtInstance.cpp:34-79 | Such a hand-back does harm if and only if the buffer was not yet counted and a consumer still to answer takes the offer, or was counted and none does |
| `DisturbedDeliveries.SplitFlushAlwaysHarms` | common/videotunnel/VtInstance.cpp:185-200 | When one buffer of a delivery has gone back and another is without holder, no answers of the remaining consumers end the delivery well |
| `DisturbedRuns.EarlyReturnRun` | common/videotunnel/VtInstance.cpp:176-205 | A run of nine steps from the start that ends with a layer holding a buffer that was returned to the driver |
| `DisturbedRuns.OrphanRun` | common/videotunnel/VtInstance.cpp:191-205 | A run of eleven steps from the start that leaves an accepted buffer queued at count zero with no holder |
| `DisturbedRuns.SplitFlushRun` | common/videotunnel/VtInstance.cpp:185-200 | A run of eleven steps from the start in which the counting for one layer falls between the two hand-backs of another one: whatever the first answers, the delivery ends badly |
| `InstanceEnd.CleanUpAccount` | common/videotunnel/VtInstanceMgr.cpp:107-129 | After any such run the clean-up releases every buffer left, once; a buffer has gone to its own tunnel if and only if it was returned before, and to tunnel -1 if and only if it was still queued |
| `InstanceEnd.AllGoHomeIff` | common/videotunnel/VtInstanceMgr.cpp:107-129 | So all buffers reach their own tunnel if and only if none is queued at the clean-up |
| `InstanceEnd.DestroySendsAllHome` | common/videotunnel/VtInstance.cpp:22-32 | A destructor that runs without the clean-up sends every buffer to its own tunnel, once |
| `InstanceEnd.HeldAtCleanUp` | common/videotunnel/VtInstance.cpp:218-235 | A buffer that a layer still holds at the clean-up, or has let go of but not handed back, is released to tunnel -1 and never to its own |
| `RefusedBuffers.StrayStays` | common/videotunnel/VtInstance.cpp:34-206 | No step gives a buffer that nobody took to a layer, or takes it out of the queue |
| `RefusedBuffers.StraysStay` | common/videotunnel/VtInstance.cpp:191-235 | Over any such run a buffer refused by every consumer, or never offered, stays queued with nothing counted and is not returned before the end of the instance |
| `RefusedBuffers.StrayRun` | common/videotunnel/VtInstance.cpp:191-235 | A run of six steps from the start whose only buffer is refused, and which the clean-up releases to tunnel -1 only |
| `RefusedBuffers.HeldRun` | common/videotunnel/VtInstance.cpp:191-235 | A run of nine steps from the start in which a refusal erases the only consumer while it holds an earlier buffer, which the clean-up then releases to tunnel -1 only |
| `DisplayThread.RoundShrinks` | hwc2/VtDisplayThread.cpp:102-117 | One round takes a frame from every non-empty game-mode queue or clears it, except that a pending COLOR_DISABLE may cost the round |
| `DisplayThread.RoundAddsNothing` | hwc2/VtDisplayThread.cpp:102-117 | No round makes work for any layer |
| `DisplayThread.UninterruptedRound` | hwc2/VtDisplayThread.cpp:102-117 | A round that handles no command takes exactly one frame from every non-empty game-mode queue |
| `DisplayThread.InterruptedRound` | hwc2/Hwc2Layer.cpp:1143-1216 | A round that presents a layer and so handles its command lowers the layer's cost (its frames for SHOW, one more for a colour buffer to be freed by COLOR_DISABLE, one in all for every other command) by exactly one |
| `DisplayThread.VtDisplayThread.RunRound` | hwc2/VtDisplayThread.cpp:102-117 | A pass updates, presents and releases every layer as specified |
| `DisplayThread.VtDisplayThread.NewGameBuffer` | hwc2/Hwc2Layer.cpp:849-861 | The loop condition is whether any game-mode layer has a frame queued |
| `DisplayThread.VtDisplayThread.HandleVtDisplay` | hwc2/VtDisplayThread.cpp:91-120 | Whatever the compositions do and whenever each round happens, the drain loop ends with every game-mode queue empty, within the largest number of rounds that any one layer causes; it takes exactly the length of the longest game-mode queue when no command is handled, and exactly the largest cost when every round presents every layer |
| `ProcessorPools.MissingCount` | composition/videoprocessorsmanager/VideoProcessorsManager.cpp:289-339 | Pigeonhole: a pool serving distinct current layers leaves exactly (layers minus processors) layers unserved |
| `ProcessorPools.NeverTooMany` | composition/videoprocessorsmanager/VideoProcessorsManager.cpp:289-339 | A pool that serves only current layers is never larger than what is asked for: the "should be impossible" branch is dead |
| `ProcessorPools.FilledFacts` | composition/videoprocessorsmanager/VideoProcessorsManager.cpp:289-339 | A filled pool has exactly min(limit, layers) processors, each for a different current layer, the old ones first |
| `ProcessorPools.KeptOrDropped` | composition/videoprocessorsmanager/VideoProcessorsManager.cpp:32-60 | Every processor is either kept or dropped |
| `ProcessorsManager.VideoProcessorsManager.DestroyUnusedProcessor` | composition/videoprocessorsmanager/VideoProcessorsManager.cpp:32-60 | The erase-while-iterating loop keeps exactly the processors of current layers, in order, and tears each other one down once |
| `ProcessorsManager.VideoProcessorsManager.Prepare` | composition/videoprocessorsmanager/VideoProcessorsManager.cpp:62-98 | All four pools are cleaned, assignments forgotten, and the reset flags are those of the current layers, true for new ones |
| `ProcessorsManager.VideoProcessorsManager.FillPool` | composition/videoprocessorsmanager/VideoProcessorsManager.cpp:100-161 | Both error branches of the shared set-up body are unreachable |
| `ProcessorsManager.VideoProcessorsManager.SetUpAiSrProcessor` | composition/videoprocessorsmanager/VideoProcessorsManager.cpp:100-161 | One processor for a single layer, an emptied pool otherwise, and no teardown call on the way |
| `ProcessorsManager.VideoProcessorsManager.SetUpAiPqProcessor` | composition/videoprocessorsmanager/VideoProcessorsManager.cpp:163-224 | The same with every processor torn down once |
| `ProcessorsManager.VideoProcessorsManager.SetUpAiColorProcessor` | composition/videoprocessorsmanager/VideoProcessorsManager.cpp:226-287 | The same for the colour pool |
| `ProcessorsManager.VideoProcessorsManager.SetUpDiProcessor` | composition/videoprocessorsmanager/VideoProcessorsManager.cpp:289-339 | The pool is filled for any number of layers |
| `ProcessorsManager.VideoProcessorsManager.TearDownSrProcessors` | composition/videoprocessorsmanager/VideoProcessorsManager.cpp:350-359 | The pool is emptied |
| `ProcessorsManager.VideoProcessorsManager.SetProcessors` | composition/videoprocessorsmanager/VideoProcessorsManager.cpp:479-504 | A layer gets exactly the processors that serve it, in running order, and keeps an earlier assignment |
| `ProcessorsManager.VideoProcessorsManager.Setup` | composition/videoprocessorsmanager/VideoProcessorsManager.cpp:506-515 | After a set-up for distinct layers: DI pool min(limit, layers), AI pools one for a single layer and none otherwise, every processor serving a different current layer |
| `ProcessorsManager.VideoProcessorsManager.RunChain` | composition/videoprocessorsmanager/VideoProcessorsManager.cpp:535-566 | Over any chain of processors each fence is closed when the next arrives, only the last stays open, and it is the last processor's |
| `ProcessorsManager.VideoProcessorsManager.RunProcessors` | composition/videoprocessorsmanager/VideoProcessorsManager.cpp:517-607 | Every descriptor obtained is on return closed once or owned by exactly one fence or callee, no other changes hands, and each callee gets the fence it has to: the outputs their processor's, the processors the plane's, the layer both |
| `ProcessorsManager.VideoProcessorsManager.RunAllProcessors` | composition/videoprocessorsmanager/VideoProcessorsManager.cpp:616-718 | The same for any number of frames, whose fences stay open between the two loops, with the composer's fence |
| `ProcessorsManager.Assembled` | composition/videoprocessorsmanager/VideoProcessorsManager.cpp:479-504 | The assembled list runs quality, colour, de-interlacing and super-resolution in that order and contains nothing else |
| `FenceFds.FdTable.OnLayerDisplayed` | common/base/DrmFramebuffer.cpp:76-88 | Both descriptors passed in are taken over: one alone is kept, two are merged and closed, also when the merge fails; the layer is left with the fences behind them |
| `FenceFds.FdTable.Close` | common/base/DrmSync.cpp:25-35 | Only an open descriptor of one's own can be closed, and only once |
| `FenceFds.FdTable.DupIfAny` | common/base/DrmSync.cpp:89-98 | A duplicate is a new descriptor that stands for the same fence, or none |
| `FenceFds.LeftCoversIff` | common/base/DrmFramebuffer.cpp:76-88 | The fence left with a layer covers the release fence and the process fence if and only if no failed duplicate takes points with it and the merge, where there are two, works or has nothing to keep |
| `FenceCalls.EverybodyIsTold` | composition/videoprocessorsmanager/VideoProcessorsManager.cpp:585-588 | Every processor that ran is told once, in order, and gets a duplicate of the release fence if and only if `dup` works for it |
| `FenceCalls.EachGetsItsOwnFence` | composition/videoprocessorsmanager/VideoProcessorsManager.cpp:552-578 | The output of each processor gets a duplicate of that processor's own fence, a de-interlacer's two, and nobody gets anything else |
| `FenceCalls.AllAreTold` | composition/videoprocessorsmanager/VideoProcessorsManager.cpp:696-713 | For any number of buffers every processor is told of the composer's fence, every buffer is left with that fence and its own last processor's, and nobody hears of anything else |
| `VdinCapture.VdinPostProcessor.StartVdin` | postprocessor/VdinPostProcessor.cpp:139-160 | The driver gets all six buffers and nothing is on screen |
| `VdinCapture.VdinPostProcessor.SetFbProcessor` | postprocessor/VdinPostProcessor.cpp:183-202 | While started the request is queued with a command; while stopped the processor is set and a null request stays behind |
| `VdinCapture.VdinPostProcessor.PresentFlags` | postprocessor/VdinPostProcessor.cpp:353-382 | A command is queued unless the last one waiting is the same |
| `VdinCapture.VdinPostProcessor.Process` | postprocessor/VdinPostProcessor.cpp:424-619 | One pass, in place: command handling, mode changes, the release loop and the capture are those of the value specification |
| `VdinRuns.TwoBeforeCapture` | postprocessor/VdinPostProcessor.cpp:494-515 | A pass never captures into the driver's last buffer, with no assumption about the driver |
| `VdinRuns.PassKeepsInv` | postprocessor/VdinPostProcessor.cpp:482-614 | A pass keeps every buffer in exactly one place and at least one with the driver |
| `VdinRuns.PlacesCount` | postprocessor/VdinPostProcessor.cpp:487-487 | The three places together always hold all the buffers |
| `VdinRuns.EveryRun` | postprocessor/VdinPostProcessor.cpp:424-614 | Over any run, whatever commands arrive, the buffers stay partitioned and every processor command has a processor waiting |
| `VdinRuns.StartIsInv` | postprocessor/VdinPostProcessor.cpp:139-160 | The state after starting satisfies the invariant |
| `VdinRuns.OneRound` | postprocessor/VdinPostProcessor.cpp:487-515 | Without a command, a round lowers captures owed plus driver buffers minus one by one if it captures and not otherwise, and rests exactly at zero |
| `VdinRuns.OnceGoesIdle` | postprocessor/VdinPostProcessor.cpp:482-614 | Over any rounds a request rests after exactly that many captures, not before, and it does rest once the driver has answered more often |
| `VdinRuns.RequestCapturesFive` | postprocessor/VdinPostProcessor.cpp:449-452 | From rest a blank or plain request captures exactly five frames and rests again with one buffer at the driver |
| `VdinRuns.ScreenCaptureRunsOn` | postprocessor/VdinPostProcessor.cpp:453-458 | After a screen capture the thread captures whatever the driver gives, continuously, and does not rest by itself |
| `VdinRuns.ScreenCommandRunsOn` | postprocessor/VdinPostProcessor.cpp:444-458 | A screen-capture command, behind any waiting ones, leads there: the round that takes it captures, and so does every later one until a further command |
| `VdinRuns.SidebandRunsOn` | postprocessor/VdinPostProcessor.cpp:433-434 | A sideband command, with any other flags, in any mode and behind any waiting commands, makes the round that takes it and every later one ask the driver; the thread never rests and captures exactly what the driver gives |
| `VdinRuns.PassKeepsLine` | postprocessor/VdinPostProcessor.cpp:494-614 | A pass gives captured buffers back from the oldest on, never the one on screen, and puts what it captures behind the others, with or without a processor |
| `VdinRuns.BuffersGoBackInOrder` | postprocessor/VdinPostProcessor.cpp:482-614 | Over any run buffers go back to the driver in the order in which they were captured, and those not yet given back are the queue and the one on screen |
| `VdinRuns.AskTakesEffectIff` | postprocessor/VdinPostProcessor.cpp:435-443 | A processor requested at any time is in force, once all commands waiting then are obeyed, if and only if there are no more requests than update commands, or the request the new command serves is for the same processor |
| `VdinRuns.AskStoppedAddsSurplus` | postprocessor/VdinPostProcessor.cpp:183-202 | A request made while stopped adds one to the requests that no command will serve |
| `VdinRuns.RunKeepsSurplus` | postprocessor/VdinPostProcessor.cpp:435-443 | While started no run of commands, requests and rounds changes that surplus |
| `VdinRuns.ServeAll` | postprocessor/VdinPostProcessor.cpp:424-443 | As many rounds as there are commands obey them all: the requests served are the oldest, one for each update command |
| `VdinRuns.ServedLate` | postprocessor/VdinPostProcessor.cpp:183-202 | With a surplus of k, after any further requests and once all is obeyed, the processor in force is the one requested k before the last |
| `VdinRuns.RestartFacts` | postprocessor/VdinPostProcessor.cpp:274-328 | After a stop, any requests while stopped and a new start, from any state, the last request is in force and every one of them has become surplus |
| `VdinRuns.RestartIsInv` | postprocessor/VdinPostProcessor.cpp:139-181 | With the thread's own start the buffers are partitioned again, all six with the driver |
| `AiColorRing.NeverOverwritesLive` | postprocessor/nnprocess/AiColorProcessor.cpp:272-300 | In no interleaving does the display thread write a slot whose index is queued |
| `AiColorRing.StepKeepsInv` | postprocessor/nnprocess/AiColorProcessor.cpp:272-411 | Every step of either thread, a teardown or a set-up keeps the queue the consecutive slots before the write index and the history exact |
| `AiColorRing.EveryRun` | postprocessor/nnprocess/AiColorProcessor.cpp:272-411 | That holds in every interleaving over the whole life of the processor |
| `AiColorRing.ClosedInOrder` | postprocessor/nnprocess/AiColorProcessor.cpp:380-411 | Duplicates are closed once each and in the order they were made; the two counters differ by what is queued or in a thread's hands, and at rest by what is queued |
| `AiColorRing.CountersAgreeIff` | postprocessor/nnprocess/AiColorProcessor.cpp:329-378 | After a teardown the counters agree if and only if the driver refused no queued buffer and no queued duplicate, then or earlier, had failed |
| `AiColor.AiColorProcessor.AsyncProcess` | postprocessor/nnprocess/AiColorProcessor.cpp:272-290 | The uninterrupted call makes the four producer steps in order |
| `AiColor.AiColorProcessor.ThreadProcess` | postprocessor/nnprocess/AiColorProcessor.cpp:380-411 | The oldest live duplicate is the one closed, and its slot leaves the queue |
| `AiColor.AiColorProcessor.Teardown` | postprocessor/nnprocess/AiColorProcessor.cpp:345-374 | The drain loop closes live duplicates from the front until the driver refuses one; it succeeds exactly when it emptied the queue |
| `AiColor.DrainStep` | postprocessor/nnprocess/AiColorProcessor.cpp:345-374 | Draining at once is dropping buffers one by one |
| `VsyncSource.HwcVsync.WaitSoftwareVsync` | common/hwc/HwcVsync.cpp:228-268 | The in-place computation is the specified tick |
| `VsyncSource.HwcVsync.WaitMixVsync` | common/hwc/HwcVsync.cpp:270-314 | A rebase, its error without controller, and the step between rebases are those specified, with any calls of other threads while it waits |
| `VsyncSource.HwcVsync.VsyncPass` | common/hwc/HwcVsync.cpp:149-187 | One pass of the thread waits in its mode and reports the specified timestamp and period, with any calls of other threads while it waits |
| `VsyncRuns.SoftBaseFacts` | common/hwc/HwcVsync.cpp:237-245 | After a period change ticks are counted from the last tick of the old grid that is not after now |
| `VsyncRuns.SoftTickFacts` | common/hwc/HwcVsync.cpp:228-268 | A call no earlier than the previous tick returns a tick in [now, now + period], later than the previous one and on the grid |
| `VsyncRuns.SoftWithinPeriodIff` | common/hwc/HwcVsync.cpp:228-268 | For every call the tick is not in the past, and it is within a period of now if and only if the previous tick is not ahead of now, or the period changed and it is whole old periods ahead |
| `VsyncRuns.SoftRunFacts` | common/hwc/HwcVsync.cpp:228-268 | Over any run with any period changes each tick is in its window and later than all before it |
| `VsyncRuns.SoftRunKeepsPhase` | common/hwc/HwcVsync.cpp:228-268 | Over any stretch with one period no tick leaves the grid of the first, however late the calls are |
| `VsyncRuns.MixNextFacts` | common/hwc/HwcVsync.cpp:299-302 | For every now the next time is on the grid and in (now, now + 2 periods); within one period, and after the previous one, exactly when stated |
| `VsyncRuns.RebaseFacts` | common/hwc/HwcVsync.cpp:273-297 | A rebase succeeds if and only if there is a controller, takes the time of the controller set when it began, shifted by 1 ms above 60 Hz and 5 ms otherwise on an enabled tunnel display and else by the offset in use or that of a tunnel mode asked for meanwhile, and leaves no rebase pending unless the period asked for last is not positive |
| `VsyncRuns.LateSwitchIsLost` | common/hwc/HwcVsync.cpp:275-297 | A controller set while a rebase waits for the old one is not waited for: the times stay on the grid of the old one and no rebase is pending |
| `VsyncRuns.RebaseAfterCallsIff` | common/hwc/HwcVsync.cpp:68-123 | After any calls the next mixed wait rebases if and only if one of them started a mixed mode or switched a mixed tunnel source on or off, or the period asked for last is not the one in use |
| `VsyncRuns.EveryRunStaysOnGrid` | common/hwc/HwcVsync.cpp:125-187 | Over any run of passes and calls, in any order and however late, the mixed time is on the grid of the last rebase |
| `VsyncRuns.SmoothRunFacts` | common/hwc/HwcVsync.cpp:270-314 | Between rebases, with any calls in between, the times increase by whole periods, at least one a pass, and each lies in (now, now + period] |
| `VsyncRuns.ReportedPeriodIff` | common/hwc/HwcVsync.cpp:159-165 | Of two passes with any calls in between the second reports the distance of the timestamps; without a rebase a positive number of periods, and one period if and only if it begins less than a period after the first timestamp; after a failed wait, the period asked for |
| `VsyncReports.SoftReportsAreTimely` | common/hwc/HwcVsync.cpp:149-177 | Over any run, with any calls and changes of mode, each timestamp the observer is told after a software wait lies in [now, now + period] and is later than all told before by software waits |
| `VsyncReports.SoftReportsStayOnGrid` | common/hwc/HwcVsync.cpp:228-268 | While the requested period stays the same the timestamps told after software waits are at least one and a whole number of periods apart, also across a stretch of the mixed mode |
| `VsyncReports.MixedReports` | common/hwc/HwcVsync.cpp:149-187 | After a mixed wait the observer is told the time that stays on the grid of the last rebase, or the wait fails, which it does if and only if it needs a controller and has none |
| `VsyncReports.ReportedPeriods` | common/hwc/HwcVsync.cpp:159-165 | In any mode and after any calls the period told is the distance from the timestamp told before, and the requested one for a tunnel source or after a timestamp of 0 |
| `Bits.HalvesIsScan` | common/utils/BitsMap.cpp:37-63 | On every byte with a clear bit the search by halves finds what the bit-by-bit scan finds |
| `Bits.BitsMap.GetZeroBit` | common/utils/BitsMap.cpp:28-69 | The result is the least clear bit of the whole map, and -1 exactly when every bit is set |
| `Bits.SignedSearchIff` | common/utils/BitsMap.cpp:31-35 | Where `char` is signed the search is right if and only if the first byte is not full |
| `Bits.BitsMap.SetBit` | common/utils/BitsMap.cpp:71-74 | The set of ones gains this bit and nothing else |
| `Bits.BitsMap.ClearBit` | common/utils/BitsMap.cpp:76-79 | It loses this bit and nothing else |
| `Bits.BitsMap.Reset` | common/utils/BitsMap.cpp:81-84 | No bit is left set |
| `LayerIds.CreateKeepsInvIff` | hwc2/Hwc2Display.cpp:693-704 | A creation keeps set bits and live layers in step if and only if fewer than 256 layers live |
| `LayerIds.CreateWithRoom` | hwc2/Hwc2Display.cpp:711-724 | Then the new id is not live, the layer becomes live under it, and its slot was free |
| `LayerIds.CreateWhenFull` | hwc2/Hwc2Display.cpp:693-704 | At 256 live layers a creation still goes through, and afterwards the set bits no longer match the live layers |
| `LayerIds.TheNextOneIsLost` | hwc2/Hwc2Display.cpp:693-724 | On a new display the 257th creation in a row gives out the id of the first layer, which is still live, and the new layer is not entered |
| `LayerIds.FreeSlotIff` | hwc2/Hwc2Display.cpp:693-697 | There are as many bits as layers, a slot is always found, and it is below 256 if and only if fewer than 256 layers live |
| `LayerIds.DestroyKeepsInv` | hwc2/Hwc2Display.cpp:726-745 | Destroying removes exactly this layer and its bit; an unknown id is refused |
| `LayerIds.EveryRun` | hwc2/Hwc2Display.cpp:688-745 | Over any run of creations, destructions and clean-ups with at most 256 live layers the set bits are exactly the slots of the live layers and no two share one |
| `LayerIds.IdsDiffer` | hwc2/Hwc2Display.cpp:699-703 | Two ids issued fewer than 256 creations apart differ, across destructions and clean-ups; at 256 apart they are equal if and only if the slots are |
| `LayerIds.Hwc2Display.CreateLayer` | hwc2/Hwc2Display.cpp:711-724 | The in-place method makes the specified step, or aborts on a full bitmap |
| `LayerIds.Hwc2Display.DestroyLayer` | hwc2/Hwc2Display.cpp:726-745 | The in-place method makes the specified step and gives its error |
| `LayerIds.Hwc2Display.CleanupBeforeDestroy` | hwc2/Hwc2Display.cpp:532-549 | Layers and bits are cleared, the sequence number is kept |
| `LayerIds.LeastClearIsFree` | common/utils/BitsMap.cpp:28-69 | What the bitmap search finds is the least free slot |
| `Calibration.ChosenLiesOnPanel` | hwc2/MesonHwc2.cpp:856-890 | The calibrated rectangle lies on the panel, is the viewport whenever that fits and calibration is not done earlier, and is empty only if the inset leaves nothing |
| `Calibration.FrameLandsOnPanel` | hwc2/Hwc2Layer.cpp:1070-1100 | Every frame inside the framebuffer lands on the panel with ordered edges, and inside the calibrated rectangle within one pixel of the exact size when it is scaled |
| `Calibration.EdgeDistance` | hwc2/Hwc2Layer.cpp:1087-1098 | The distance of two scaled edges is within one pixel of the exact scaled distance |
| `Calibration.EdgeEnds` | hwc2/Hwc2Layer.cpp:1087-1098 | The framebuffer's edges land exactly on the rectangle's edges |
| `Calibration.ArrangementIsKept` | hwc2/Hwc2Layer.cpp:1083-1099 | Frames that do not overlap still do not after scaling, and a frame that covers another still does |
| `Calibration.TunnelFrameWins` | hwc2/Hwc2Layer.cpp:1064-1082 | Every tunnel frame inside the framebuffer replaces the frame that was set, unless it was never given |
| `Calibration.WholeFrameFillsRectIff` | hwc2/Hwc2Layer.cpp:1074-1086 | A full-size frame fills the calibrated rectangle if and only if it is scaled or the rectangle starts at the origin |
| `Calibration.CalibratedDisplay.SetCalibrateInfo` | hwc2/MesonHwc2.cpp:856-890 | The branches choose the specified rectangle |
| `Calibration.CalibratedDisplay.LoadCalibrateInfo` | hwc2/Hwc2Display.cpp:1159-1175 | The zoom is taken over, or refused and unchanged when the mode has no size |
| `Calibration.LayerFrame.AdjustDisplayFrame` | hwc2/Hwc2Layer.cpp:1064-1100 | The tunnel frame or the set frame is scaled edge by edge, or left alone |
| `Calibration.LayerFrame.Place` | hwc2/Hwc2Display.cpp:1159-1175 | All three steps together put the layer on the panel, with the size of the tunnel's frame, or of the set one if there is none, within one pixel |
| `ModeLists.VisibleFacts` | common/hwc/ActiveModeMgr.cpp:94-108 | Exactly the modes that are not hidden are reported, and the mode in use always is |
| `ModeLists.ActiveIsRightIff` | common/hwc/ActiveModeMgr.cpp:258-272 | The HWC active id always names an entry; it matches the mode in use if and only if some entry has its name and rate, as is always so for the substitute mode |
| `ModeLists.BestFacts` | common/hwc/ActiveModeMgr.cpp:164-190 | The fold keeps, for exactly the rates that have an unfiltered mode, one as wide as every unfiltered mode of that rate that is not 4096 wide, and a 4096-wide one only if it came first |
| `ModeLists.SfListFacts` | common/hwc/ActiveModeMgr.cpp:159-213 | The SurfaceFlinger list has only HWC modes, one choice per rate and at most one appended mode, and the active id names an entry of the HWC active mode's name and rate |
| `ModeLists.AppendedIff` | common/hwc/ActiveModeMgr.cpp:204-208 | The active mode is appended if and only if its rate has no choice or a choice of another name |
| `ActiveModes.ActiveModeMgr.Update` | common/hwc/ActiveModeMgr.cpp:77-133 | Both maps have the keys 0 to n - 1 and list exactly the specified modes, and both active ids are the specified ones |
| `ActiveModes.ActiveModeMgr.Collect` | common/hwc/ActiveModeMgr.cpp:94-117 | The collecting loop skips hidden modes and notices whether the mode in use is reported |
| `ActiveModes.ActiveModeMgr.UpdateHwcActiveConfig` | common/hwc/ActiveModeMgr.cpp:258-272 | The first entry of that name and about that rate is found, else the last entry is taken |
| `ActiveModes.ActiveModeMgr.UpdateSfDispConfigs` | common/hwc/ActiveModeMgr.cpp:159-213 | The three loops build the specified list and id |

## Left out

- Real drivers, ioctls, sysfs, gralloc, EGL, neural-net and HIDL calls: their answers are parameters.
- Real threads, locks and condition variables: the model steps at lock boundaries, and where there is no lock at each access of a shared counter; the spin wait of `asyncProcess` and the sleeps are steps without effect.
- `refHandle` changes a plain integer without a lock: each count is one step of the model, an update lost between two threads is not modelled.
- UVM buffers, HDR metadata, contents of the colour buffers, zoom and crop: only the colour flag that touches `mVtUpdate` is kept.
- The virtual (rounded-corner) layer, except as a flag of the frame scaling; layer ids are modelled without it.
- The choice of planes by composition strategies: a round of the display thread may present a layer in any way.
- `ModePolicy`, module and factory code, dump functions: tables and forwarding.
- `resetProcessors` and the inside of each video processor: a processor is an identity that may or may not produce a fence.
- Fences replaced inside a frame buffer are closed by their own object's destructor, which the descriptor table does not follow further.
- Consumer listeners, command delivery, and when the manager decides to clean up: layers join and leave as steps between deliveries, and the clean-up is stated for every state between deliveries.
- PresentedFences.EveryRunProperIff: takes it that a layer's own release fence can be duplicated when a frame goes back (`getPrevReleaseFence`, `getCurReleaseFence`); a failed duplicate there hands back no fence.
- TunnelLayer.Hwc2Layer.OnVtFrameDisplayed: what the instance answers is a parameter and not tied to the instance class; that every hand-back finds its buffer follows for the system from its invariant (`TunnelProtocol.StepKeepsInvIff`).
- The instance class and the layer class do not hold references to each other; they meet in the step machine, which is built from the same functions.
- Sharing of one `VtBufferItem` between the queue and a delivery is kept; sharing of fences by `shared_ptr` is modelled by value.
- Vout buffers, checksums, screenshot processors and drawing in the vdin thread; the thread's creation.
- The pure hardware vsync mode, and clock overflow of 64-bit nanoseconds; calls of other threads are taken while the mixed wait has released its lock and between waits, not between two unlocked reads of the period.
- Float rounding in frame scaling, in `1e9 / period` and in rates.
- LayerIds.EveryRun: needs fewer than 256 live layers at each creation, which is exactly when the property holds (`LayerIds.CreateKeepsInvIff`).
- VdinRuns.EveryRun: assumes that callers do not use the processor-command flag themselves, which the class keeps to itself.
