# AutoUpscale: a verified model

AutoUpscale is a VLC video filter that upscales each frame with a pool of zimg workers (or
with swscale), sharpens the luma plane with a second pool, and measures which worker count
is fastest. This project models the parts of it whose correctness is not visible from one
function, and proves what they promise:

- **Sharpening in place** (`Planes`, `PlaneCopy`, `UsmKernel`, `UsmSweep`, `UsmPool`,
  `UsmReference`, `UsmSchedule`, `UsmLaws`). Each worker sweeps a stripe with three rolling
  blur rows and overwrites the plane it reads; the result equals the plain two-pass mask of
  the frame for every geometry, amount, worker count and interleaving. `UsmSweep` and
  `UsmPool` are the loops over byte arrays, `UsmSchedule` interleaves the workers pixel by
  pixel, and `UsmLaws` says what the mask does to a picture without the filter's rounding
  steps.
- **The dispatch gate** (`Gate`, `GateSafety`, `GateRuns`, `GateProgress`, `GateBound`,
  `GateReturn`, `GateHangs`, `GateRecord`, `GateSignal`). The generation gate and the
  completion barrier as a transition system in which every lock, unlock, wait, signal,
  broadcast, cancellation and join and every atomic access is a step, with spurious wakeups,
  timeouts and failures of any call (setting a thread's own cancel state shares nothing and
  is part of the step beside it): an inductive invariant, what it means for whole runs,
  which states are dead ends, that no failure goes unnoticed, and bounds on how long a
  dispatch and a retirement take whatever fails. `failed` records whether any pthread call
  has failed on the run so far.
- **The worker pool's lifecycle** (`WorkerPool`): sticky lazy start, partial spawn, poison
  and all-or-nothing teardown, with a ledger of every construct and release.
- **The tile grid** (`Arith`, `ThreadPolicy`, `Tiling`, `TileCover`, `TileCopy`): the search
  for the grid, its optimality, the exact tiling of both frames and all planes, and the
  copies that assemble the picture.
- **The worker tuner** (`TunerScore`, `Tuner`, `TunerSearch`, `TunerRules`): the in-place
  score, the BASE/TRIAL/CONFIRM/SETTLED machine as a class that refines a transition
  function, bounds on its search, and when it changes its mind in plain numbers.
- **Adaptive sharpening and the filter** (`UsmAdaptive`, `FilterLifecycle`): who owns which
  pool and which picture, over any sequence of frames and failures.
- **Arithmetic around them** (`ContentProbe`, `ProbeLaws`, `Planner`, `CropView`): the fused
  content probe against its separate reference sweeps, the planner's contract, and picture
  windows.

Whatever the environment decides (allocation, thread creation, pthread results, clocks,
foreign resamplers) is an input of the operation or a choice of the step. A C pointer into
a buffer is an array and an offset; a null pointer is a flag or a nullable array. Integers
are unbounded; where the source's width matters, a lemma bounds the value
(`UsmKernel.RoundingFormsAgree`, `Tiling.CutsInside`, `ContentProbe.WindowFitsIn64Bits`).

Three places where the code does less than a reader may expect, stated as results. With an
odd frame height and subsampled rows the worker cells do not cover the last chroma row
(`TileCover.ChromaTiledIffEvenHeight`, `TileCover.OddHeightWitness`; the planner only
produces even heights, and the crop makes source heights even). The planner rejects a source
whose odd width does not grow by a whole column (`Planner.BypassExactly`,
`Planner.OddWidthWitness`). A dispatch or a stop can wait for good after a pthread failure,
but only if an unlock has left its mutex locked or a cancellation is refused
(`GateProgress.NoDeadlock`, `GateReturn.RetirementReturns`, `GateHangs.StuckMutexCanHang`,
`GateHangs.RefusedCancellationCanHang`).

`dafny verify dfyconfig.toml` checks the whole project.

## Model

| member | source | states |
|---|---|---|
| UsmKernel.RoundingFormsAgree | src/usm.h:112-124 | both ways the code divides by 256, the truncating correction and the biased one, are the floor over every product the filter can form, so the choice made per worker count never shows in the output |
| UsmKernel.HBlurRow | src/usm.h:66-83 | one row of [1 2 1]/4 with the edge samples replicated, for every width including 1 |
| UsmKernel.Detail | src/usm.h:149-171 | the signed correction of a pixel is the floored product whichever division the worker was told to use |
| UsmKernel.CombinePixel | src/usm.h:149-171 | vertical blur, correction and clamp of one pixel give the closed-form sharpened byte |
| UsmKernel.CombineRow | src/usm.h:149-171 | a whole row is combined correctly also when destination and source are the same bytes, and nothing outside the row is written |
| UsmKernel.TargetIsUnique | tests/usm_reference.h:26-52 | the whole-plane mask is determined by the frame and the amount alone |
| UsmLaws.TapRounds | src/usm.h:66-83 | a tap is the weighted sum divided by 4, rounded to the nearest, ties up |
| UsmLaws.MaskSharpens | src/usm.h:126-171 | every pixel p of the mask is p + amount/256 * (p - S/16), S the 1 2 1 / 2 4 2 / 1 2 1 sum around it with the border replicated, up to the rounding of blur and product; clamped pixels lie on the same side |
| UsmLaws.NothingToSharpen | src/usm.h:90-110 | an amount of nothing gives the picture back |
| UsmLaws.ExtremaStay | src/usm.h:149-171 | a local maximum never gets darker, a local minimum never gets brighter |
| UsmReference.ReferenceApply | tests/usm_reference.h:54-80 | the two-pass oracle computes the whole-plane mask for the clamped amount, in place or not and also when it moves the plane to a smaller stride in one buffer, copies the picture for an amount of nothing, and otherwise says that it did nothing |
| PlaneCopy.CopyPlane | src/plane_utils.h:30-44 | the single-block path and the row loop both copy exactly the rectangle; bad sizes and strides copy nothing |
| PlaneCopy.ApplyIdentity | src/usm.h:90-101 | the destination shows the source picture, whether the planes are the same or not, and padding is untouched |
| UsmSweep.Worker.SweepRow | src/usm_pool.c:258-281 | one row of the fused sweep keeps the rolling buffers equal to the horizontal blurs of the previous and current row and writes the final row over the one it reads |
| UsmSweep.Worker.Run | src/usm_pool.c:258-281 | a worker's whole stripe is masked and no byte outside the stripe's visible window changes |
| UsmPool.ResolvedThreads | src/usm_pool.c:395-410 | a pool gets between 1 and 64 workers, and more than one only if every stripe keeps the minimum height |
| UsmPool.MostThreads | src/usm_pool.c:395-410 | a pool gets the most workers that the request, the limit of 64 and the minimum stripe height allow |
| UsmPool.StripesOrdered | src/usm_pool.c:354-365 | the proportional stripe boundaries never run backwards |
| UsmPool.StripesAreEven | src/usm_pool.c:354-365 | a boundary is its proportional share of the height, rounded down; two stripes differ by at most one row |
| UsmPool.StripeOfRow | src/usm_pool.c:354-365 | every row belongs to a stripe |
| UsmPool.Pool.Repartition | src/usm_pool.c:354-365 | the live workers own consecutive stripes that cover the plane |
| UsmPool.Pool.SnapshotHalo | src/usm_pool.c:434-449 | the two boundary rows a neighbour may overwrite are saved, and nothing but the two snapshot rows changes |
| UsmPool.Pool.SetPerFrame | src/usm_pool.c:457-474 | after the per-frame set-up every worker can run its stripe whatever the others do |
| UsmPool.Pool.Dispatch | src/usm_pool.c:490-515 | workers completing in any order leave every row masked and the padding untouched; after a gate failure the stripes of the callbacks that ran are final |
| UsmPool.Pool.Apply | src/usm_pool.c:476-515 | for any plane, strides, amount, worker count and completion order a successful call leaves the whole-plane mask of the source as it was before; rejected arguments, a broken pool and a failed start change nothing; a failed dispatch is reported as uncertain with the stripes that ran final; padding is never touched |
| UsmSchedule.StepKeepsInv | src/usm_pool.c:258-281 | any worker taking the next pixel step keeps every worker's rolling rows, written pixels and unread source rows right |
| UsmSchedule.NoDataRace | src/usm_pool.c:434-449 | in place, no byte one worker ever writes is read or written by another at any time, on any course of the dispatch |
| UsmSchedule.PrepareDispatch | src/usm_pool.c:434-474 | after set_per_frame the stripe bounds and halo snapshots of the pool are those of a dispatch of the frame, in place or not, which is what the interleaving theorem asks for |
| UsmSchedule.AnyInterleavingIsMask | src/usm_pool.c:434-474 | under every pixel-by-pixel interleaving of the workers the finished plane is the whole-plane mask and no other byte has changed |
| UsmSchedule.FinishedExactly | src/usm_pool.c:258-281 | a worker has finished exactly when it has been scheduled a fixed number of times: no worker waits for another |
| GateSafety.WorkerStepKeepsInv | src/pool_gate.h:207-302 | every step of a worker in wait_for_go, the callback, worker_done and the failure report keeps the gate invariant |
| GateSafety.MainStepKeepsInv | src/worker_pool.h:278-445 | every step of the owner in dispatch, wait_all, poison and stop keeps the gate invariant |
| GateRuns.PendingCountsUnfinished | src/pool_gate.h:184-188 | on every run `pending` is the number of workers that have not finished the current generation, and every worker lags by at most one |
| GateRuns.DispatchRanEveryWorker | src/worker_pool.h:421-445 | when dispatch returns 0 every worker has run this generation, and each before it, exactly once and is outside the callback |
| GateRuns.ReturnMeansQuiet | src/worker_pool.h:395-445 | whenever dispatch, poison or stop has returned, with whatever failures, no callback is active; a broken pool has no worker left |
| GateRuns.HealthyExitRanEverything | src/pool_gate.h:223-293 | a worker that leaves without a gate failure or a cancellation leaves on an exit request and has run every generation, an unseen one included, exactly once |
| GateRuns.NeverRerun | src/worker_pool.h:172-188 | no worker ever runs a generation twice or out of order |
| GateRuns.NoWorkerSleepsOnTrue | src/pool_gate.h:223-231 | no lost wakeup, worker side: with the gate free and no pthread failure nobody sleeps on a true condition |
| GateRuns.OwnerStillToBeSignalled | src/pool_gate.h:296-323 | no lost wakeup, owner side: if the owner sleeps at pending 0, the last worker is between its decrement and its signal |
| GateRecord.FailureIsOnRecord | src/pool_gate.h:187-302 | whatever pthread call of whatever thread has failed, the sticky flag is up, the pool is broken, or that thread is still on its way to bring this about |
| GateRecord.DyingWorkerIsHeard | src/pool_gate.h:207-221 | a worker that dies of a gate failure raises the flag, and the owner does not sleep through it unless a call of the report fails too |
| GateRecord.FlagEndsDispatch | src/pool_gate.h:304-347 | once the flag is up a dispatch under way does not return 0, the owner does not go to sleep again, and a wait that has not begun never does |
| GateRecord.NoDispatchAfterFailure | src/worker_pool.h:421-445 | a dispatch that begins after a failure neither waits nor returns 0, unless the worker it happened to has not recorded it yet |
| GateSignal.OnlyTheLastSignals | src/pool_gate.h:296-302 | at most one worker at a time is on its way to the completion signal, and only when every worker has finished its generation |
| GateSignal.StuckForGood | src/pool_gate.h:187-221 | an unlock that fails for good leaves its mutex locked for ever |
| GateSignal.JoinedForGood | src/worker_pool.h:255-296 | a joined thread is gone, stays joined, and is not cancelled |
| GateProgress.NoDeadlock | src/pool_gate.h:18-41 | whatever pthread calls have failed: no thread can take an ordinary step exactly if the owner waits and every worker that is not gone sleeps uncancelled or waits for a mutex that is locked for good; without a failure that never happens during a call |
| GateReturn.DispatchReturns | src/worker_pool.h:421-445 | a dispatch of n workers takes at most 24 + 51n steps of all threads under any schedule, 5 more per spurious wakeup, whatever pthread calls have failed before or fail on the way and whether it times out; it returns 0, or with the pool retired; until then somebody can go on or the timed wait runs out, unless a mutex is locked for good or a cancellation refused; without a failure it retires the pool only after a deadline at which the last look found a worker unfinished, with every generation run |
| GateReturn.RetirementReturns | src/worker_pool.h:263-296 | retiring a pool at any moment, through the exit request or the cancellations, takes at most 9 + 33n steps, 3 more per spurious wakeup, whatever has failed before or fails on the way; every worker is then gone, and those that left in order have run everything: all of them if nothing failed; until then somebody can go on unless a mutex is locked for good or a cancellation refused |
| GateReturn.FailedRequestCancels | src/worker_pool.h:278-291 | if any call of the exit request fails, every worker is cancelled, unless gone or its cancellation refused, before the first is waited for |
| GateHangs.HangsExactly | src/worker_pool.h:269-296 | an owner waiting for a worker is at a standstill exactly if every worker that is not gone sleeps uncancelled or waits for a mutex that is locked for good, and only the former if none is |
| GateHangs.StuckMutexCanHang | src/worker_pool.h:431-438 | a run of any number of workers that hangs: the unlock of the gate fails for good during a dispatch and the owner waits for the same mutex to request the exit |
| GateHangs.RefusedCancellationCanHang | src/worker_pool.h:263-284 | a run that ends in such a standstill: one sleeping worker, a failed gate lock, a refused cancellation |
| WorkerPool.BuiltIsFirstFailure | src/worker_pool.h:244-261 | the number of workers built is the index of the first rejected slot or failed spawn |
| WorkerPool.StartNeeds | src/worker_pool.h:308-326 | a pool starts exactly if 1 to 64 workers are asked for, everything they need can be had, and all workers (all or nothing) or the first one (otherwise) come up |
| WorkerPool.Pool.Setup | src/worker_pool.h:305-317 | what set-up allocates before a failure stays recorded for destroy |
| WorkerPool.Pool.ConstructOne | src/worker_pool.h:225-250 | a rejected slot owns nothing, a slot whose spawn failed is released at once, and only a live slot has a thread |
| WorkerPool.Pool.ConstructAll | src/worker_pool.h:252-261 | slots come up in order until the first failure |
| WorkerPool.Pool.Stop | src/worker_pool.h:278-296 | exactly the joinable threads are reaped, the others keep their marker, and the result says whether any is left |
| WorkerPool.Pool.RetireFailedStart | src/worker_pool.h:328-334 | a failed join releases nothing and keeps all slots for destroy; otherwise every built slot is released once |
| WorkerPool.Pool.EnsureStarted | src/worker_pool.h:342-374 | start succeeds exactly if the policy's workers come up; success and failure are sticky and a later call changes nothing |
| WorkerPool.Pool.Poison | src/worker_pool.h:395-408 | at any time: the pool is broken, its joinable threads are gone, the others have published their exit; slots stay held |
| WorkerPool.Pool.Frame | src/usm_pool.c:497-515 | an owner's frame succeeds exactly if the pool is not broken, is up or can be brought up, and the dispatch succeeds; a broken pool or one whose start failed is left alone |
| WorkerPool.Pool.Destroy | src/worker_pool.h:455-467 | either every live slot is released and the storage freed, or, with a thread not joined, nothing is |
| WorkerPool.Live | tests/fuzz_worker_pool.c:111-198 | over any sequence of start, dispatch, poison and destroy with any failures, each constructed slot is released exactly once by the time destroy succeeds, and never while its thread is not joined |
| Tiling.StripesMeet | src/plane_utils.h:83-98 | neighbouring stripes share their boundary in both frames, the first starts at 0 and the last ends at the edge |
| Tiling.CutsInside | src/plane_utils.h:83-98 | every boundary lies in its frame, so narrowing the 64-bit quotient to int is exact |
| Tiling.CutsAreProportional | src/plane_utils.h:83-98 | every interior cut is the largest even number not above its proportional share, in the destination and in the source |
| Tiling.AxisPartitionOk | src/plane_utils.h:149-161 | true exactly if no stripe is degenerate or, with several, below the minimum |
| Tiling.LargestValidSplit | src/plane_utils.h:165-171 | the largest valid split not above the start, or 1 |
| Tiling.DecideTileGrid | src/plane_utils.h:173-208 | the chosen grid is feasible and no feasible grid has more cells, or as many with more rows |
| Tiling.BestGridIsUnique | src/plane_utils.h:173-208 | geometry, minima and budget determine the grid |
| Tiling.BestGridIsOptimal | src/plane_utils.h:100-118 | on positive geometry and minima the grid is optimal among all pairs with both axis partitions valid and cells within the budget: the search limits exclude nothing |
| Tiling.ColumnsOnlyIfNeeded | src/plane_utils.h:100-118 | columns are used only if the height cannot host enough row stripes to use every thread |
| Tiling.RoomySplits | src/plane_utils.h:149-161 | a sufficient condition in the lengths alone for a split into n stripes to be valid |
| Tiling.RoomForEveryThread | src/plane_utils.h:173-208 | with such room for one row per thread the grid is one row per thread |
| Tiling.RoomyGridIsALowerBound | src/plane_utils.h:173-208 | the grid never has fewer cells than any grid with such room on both axes within the budget |
| Tiling.MoreThreadsMoreCells | src/plane_utils.h:100-118 | a larger budget never gives fewer cells |
| Tiling.ResolveIoPlan | src/zimg_helpers.h:151-171 | the plan's grid is the best grid, with columns only for sources read in place, and its flags follow from it |
| Tiling.PlanChain | src/zimg_helpers.h:114-130 | column tiles imply a source read in place and a copied destination; at most 64 workers |
| Tiling.ResolvingTwice | src/zimg_helpers.h:124-128 | resolving a plan's own flags again returns the same plan |
| TileCover.ChromaDimIsCeiling | src/zimg_helpers.h:85-91 | halving with rounding up sub times is v / 2^sub rounded up |
| TileCover.AxisCuts | src/plane_utils.h:83-98 | a valid split cuts both frames into non-empty stripes with even interior boundaries |
| TileCover.CellsExist | src/scaler_zimg.c:736-757 | no cell of a planned grid is rejected; worker i is row i / cols, column i % cols, non-empty in both frames |
| TileCover.CellsTile | src/scaler_zimg.c:342-424 | every sample of every plane of either picture is in exactly one cell (with subsampled rows and an odd height: every sample above the last row) |
| TileCover.OddHeightLosesLastChromaRow | src/scaler_zimg.c:355-357 | with an odd height and subsampled rows the last chroma row, of the source or of the destination, is in no cell |
| TileCover.ChromaTiledIffEvenHeight | src/scaler_zimg.c:355-363 | the cells tile the row-subsampled planes of a picture exactly if its height is even |
| TileCover.OddHeightWitness | src/scaler_zimg.c:416-417 | the single cell of a 2 x 3 frame misses the second chroma row |
| TileCopy.CopyOutPlane | src/scaler_zimg.c:402-424 | one cell's copy-out fills its rectangle with its output and touches no other byte |
| TileCopy.EmitOutput | src/scaler_zimg.c:435-440 | a worker whose resample failed writes nothing; otherwise its cell joins those already in the picture and disturbs none, in all three planes |
| TileCopy.EmitAll | src/scaler_zimg.c:373-440 | after all workers, in any order, the cells of the successful ones are in the picture and no other byte has changed |
| TileCopy.FrameIsAssembled | src/scaler_zimg.c:402-424 | once all cells of a grid have been emitted, every sample comes from the one cell that owns it and no byte outside the visible window was written |
| TileCopy.EmitFrame | src/scaler_zimg.c:373-440 | for every resolved plan whose workers copy out and whose resamples succeed, running all copy-outs in any order assembles all three planes |
| TunerScore.ComputeScore | src/worker_tuner.h:58-73 | the loop leaves the sorted permutation and returns the exact mean and the two order statistics |
| TunerScore.ArrangedIsSorted | src/worker_tuner.h:58-73 | what the insertion sort leaves is sorted and a permutation |
| TunerScore.ScoreIgnoresOrder | src/worker_tuner.h:58-73 | the score depends on the samples, not on the order they are stored in |
| TunerScore.TailMeans | src/worker_tuner.h:58-73 | at most one sample in 20 exceeds p95 and one in 100 exceeds p99, and both are the least samples of which that is true |
| Tuner.Tuner.ObserveFrame | src/worker_tuner.h:158-176 | the implementation on its in-place sorted buffer refines the transition function; the early peek that sorts four samples changes no score |
| TunerSearch.NextCountClimbs | src/worker_tuner.h:48-56 | the next count is the smallest above the previous one on the ladder cut off at the limit, and 0 exactly at the limit |
| TunerSearch.AlwaysInv | src/worker_tuner.h:89-176 | over every run best and current stay within 1..limit and differ only during a trial |
| TunerSearch.SearchSettles | src/worker_tuner.h:98-156 | from the start of a search the tuner settles within 31 windows and 2046 valid observations, whatever it measures |
| TunerSearch.EverythingVisited | src/worker_tuner.h:98-111 | by the time it settles every ladder count up to the limit has been tried or was the incumbent at its turn |
| TunerSearch.VisitedMeans | src/worker_tuner.h:98-111 | what counts as dealt with: a trial begun, the incumbent passed over, or the end of the ladder |
| TunerSearch.SettledDwell | src/worker_tuner.h:124-136 | once settled the worker count is kept for at least 384 and at most 16384 valid observations |
| TunerSearch.CutTrialNeverAdopted | src/worker_tuner.h:113-162 | a trial cut short as too slow is never adopted, whatever is measured afterwards |
| TunerRules.AdoptsExactly | src/worker_tuner.h:83-122 | the incumbent changes exactly if the candidate's mean is more than 5% below, and neither tail more than 5% above, both the incumbent's window before and the one after the trial |
| TunerRules.ScoresAreMeasured | src/worker_tuner.h:89-156 | baseline, trial and steady scores are those of the windows that ended there, and stay until the verdict |
| TunerRules.WindowEndsExactly | src/worker_tuner.h:151-176 | a window ends with its 64th time, or in a trial with the fourth if the four exceed one and a half times the baseline |
| TunerRules.WarmupExactly | src/worker_tuner.h:158-176 | invalid times are ignored, and after a change of the worker count exactly two valid ones |
| TunerRules.LeavesSettledExactly | src/worker_tuner.h:124-136 | a settled tuner searches again exactly at the end of a window after the cooldown, if its time is over or for the third drifted window in a row |
| UsmAdaptive.Adaptive.constructor | src/usm_adaptive.h:18-31 | the limit is capped so that every count the tuner may ask for leaves each stripe its minimum height, and the search is on exactly if that leaves more than one |
| UsmAdaptive.Adaptive.Select | src/usm_adaptive.h:64-78 | during a trial the pool used has exactly the candidate's workers; a pool that cannot be created ends the search and leaves the incumbent |
| UsmAdaptive.Adaptive.Accept | src/usm_adaptive.h:90-105 | on adoption, and only then, the old incumbent is destroyed and the trial pool with exactly the tuner's best count takes its place; after a rejected comparison no trial pool is left |
| UsmAdaptive.Adaptive.Recover | src/usm_adaptive.h:107-117 | a trial pool that failed without touching the pixels is replaced by the incumbent for this frame; one that may have touched them is not |
| UsmAdaptive.Adaptive.ApplyFrame | src/usm_adaptive.h:119-143 | which pools the frame goes through, its status, and whether the search goes on, each as an exact condition; every frame is sharpened at most once, the status is true of the pixels, and ownership stays exact |
| UsmAdaptive.Playback | src/usm_adaptive.h:33-143 | over any sequence of frames and failures every pool created has been destroyed exactly once at the end |
| FilterLifecycle.Filter.DisableUsm | src/autoupscale.c:537-543 | sharpening ends and every pool is destroyed |
| FilterLifecycle.Filter.ApplyUsm | src/autoupscale.c:642-677 | the plane is untouched or sharpened exactly once unless the status says that this is uncertain |
| FilterLifecycle.Filter.FinishScaledFrame | src/autoupscale.c:679-695 | the output is sharpened as the pools' verdict says; an uncertain output is released together with the input, any other is returned and only the input released |
| FilterLifecycle.Filter.TryBackendFallback | src/autoupscale.c:710-757 | at most one fallback in a playback, only away from zimg, to swscale if it is allowed, picked and opened and to nothing otherwise |
| FilterLifecycle.Filter.FilterFrame | src/autoupscale.c:759-815 | the input is released exactly once, an output that was obtained is the result or released once; whether there is a result and how often it has been sharpened, what the probe does, and when sharpening ends, each as an exact condition on the frame; the backend changes exactly as the fallback says |
| FilterLifecycle.Filter.FateExactly | src/autoupscale.c:642-695 | a frame that gets through to a working pool is sharpened exactly once; a frame is lost only if it cannot be scaled or its sharpening was given up half way |
| FilterLifecycle.Filter.FallbackExactly | src/autoupscale.c:728-757 | the backend changes exactly if zimg fails for the first time, to swscale exactly if zimg was not forced and swscale could be picked and opened |
| FilterLifecycle.Playback | src/autoupscale.c:759-866 | over any playback every input has been released and none handed on, the pictures handed on are exactly the results, no picture is kept, every opened backend is closed exactly once, and no pool is left |
| ContentProbe.FusedMetrics | src/content_probe.h:102-112 | the fused sweep returns exactly the sums and counts of the separate sweeps for every shape and reads only bytes of the plane |
| ContentProbe.LaplacianSweep | tests/content_probe_reference.h:7-30 | the reference Laplacian sweep computes the Laplacian part of the same sums |
| ContentProbe.BlockEdgeStrength | tests/content_probe_reference.h:70-85 | the reference edge sweeps compute the edge part of the same sums |
| ProbeLaws.SharpnessIsCurvature | src/content_probe.h:64-77 | the sharpness metric takes ((h-2)/4)*((w-2)/4) samples and on a surface of second degree measures exactly the square of its Laplacian: nothing on a flat or tilted plane |
| ProbeLaws.BlockinessIsSlope | src/content_probe.h:79-100 | the blockiness metric takes every fourth pixel of every eighth boundary and on a tilted plane measures exactly the slope across it |
| ContentProbe.FrameBound | src/content_probe.h:64-112 | bounds of one frame's sums and counts for dimensions up to 32768 |
| ContentProbe.WindowFitsIn64Bits | src/content_probe.h:132-142 | over the 60-frame window no 64-bit accumulator can wrap |
| Planner.TargetAbove | src/upscale_logic.h:120-145 | a target above the source is even, at most four times the source and at most the preset; AUTO at most 1080 |
| Planner.TargetExactly | src/upscale_logic.h:65-145 | the target is the preset's height, or for AUTO 1080 with four cores and at least 270 rows and otherwise 720, capped at four times the source and never below it |
| Planner.PlanContract | src/upscale_logic.h:252-277 | a successful plan has even dimensions, at least the source's width, a strictly larger height within the ratio, and is less than two columns short of the aspect ratio |
| Planner.BypassExactly | src/upscale_logic.h:252-277 | when a source is bypassed, as an if and only if: among others when an odd width does not grow by a whole column |
| Planner.OddWidthWitness | src/upscale_logic.h:225-238 | a 3 x 1024 source with the 1080p preset is such a source |
| CropView.TableIsSound | src/chroma_classify.h:97-146 | the table's groups are the subsampling factors of every plane of every format with luma |
| CropView.FormatsAsNamed | src/chroma_classify.h:97-146 | the formats known, which have luma, how they are subsampled, and which swaps its chroma planes |
| CropView.FrameSize | src/chroma_classify.h:97-146 | the planes of an even-sized frame have together the 12, 16, 24 or 32 bits a pixel the format is known for |
| CropView.AlignIsLargestEven | src/chroma_classify.h:262-286 | the aligned window is the largest even-bounded window inside the one given |
| CropView.ExtentIsTight | src/picture_view.h:71-91 | a plane window consists of exactly the sample groups the luma window touches |
| CropView.ExtentBytes | src/picture_view.h:71-91 | a byte or row of a plane is in a window's extent exactly if its group holds a column or row of the window |
| CropView.AcceptedWindowIsInside | src/picture_view.h:101-133 | every row of a window that passes the checks lies inside the plane's storage |
| CropView.AcceptedExactly | src/picture_view.h:94-133 | with storage of the right kind a window is accepted exactly if its last column and row are in the storage |
| CropView.DeclaredCrops | src/picture_view.h:134-172 | an accepted crop consists of pixels of the picture, and the whole of a picture is always accepted |
| CropView.ViewInit | src/picture_view.h:174-209 | the view is made exactly if the arguments, the layout and every plane pass their checks, and then every window is inside its plane; otherwise nothing |
| CropView.CropThenWindow | src/chroma_classify.h:245-299 | whatever the crop, after alignment it lies inside the crop asked for and, if anything is left, luma and chroma windows coincide in every plane |
| CropView.AlignsOnlyWhereNeeded | src/chroma_classify.h:245-299 | only subsampled axes are aligned; a lone length or offset is rounded down to even |
| CropView.AlignedCropIsExact | src/picture_view.h:71-91 | after an even crop every plane's window starts and ends where the luma window does |

## Left out

- UsmReference.ReferenceApply: one buffer as source and destination with a larger destination stride is left out, where writing overtakes reading and no mask results, and so is a copy of such a buffer to another stride, a memcpy of overlapping bytes; the pool rejects two strides for one buffer (src/usm_pool.c:486).
- WorkerPool.Pool.Dispatch: takes the gate's verdict as an input; what the gate guarantees is proved in GateRuns.
- WorkerPool.Pool.AwaitExit: that a thread comes to publish its exit is the environment's step here; GateReturn proves when it does.
- FilterLifecycle.Filter.constructor: starts after a successful open; picking a backend and the fallback at open are not modelled.
- UsmAdaptive.Adaptive.ApplyFrame: the clock is an input (whether the readings succeed, and the elapsed time), including the start time carried over from the scaling step.
- Tuner.Tuner.ObserveFrame: times are real numbers, so floating-point rounding of the mean and the thresholds is not modelled.
- GateSafety.MainStepKeepsInv: the stop inside destroy is modelled as a poison (both end the pool), and the deadline arithmetic of the timed wait is a step that may fail or expire.
- Memory ordering below sequential consistency: lock-protected and atomic steps interleave, weaker C11 behaviour does not occur.
- libzimg and swscale: a cell's resample is whatever its output buffer holds; graph construction, seams and phase are not visible.
- TileCopy models the copy-out; the copy-in of source stripes uses the same plane copy and is represented by TileCover.CellsTile.
- Scratch pitch and line rounding (src/zimg_helpers.h:57-112) and the storage-alignment re-check on the first frame: simple expressions.
- The flat-stripe skip of the sharpening pool (off by default, deliberately not byte-identical).
- The probe's two verdict functions and the logging around them: threshold comparisons.
- VLC option registration, chroma support queries, metrics, CPU pinning and topology detection, SIMD variant dispatch.
