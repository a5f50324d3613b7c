# Verification of the cosmos-curator schedulers, trackers and printers

This project models five parts of cosmos-curator and proves what each of them is for.

* **Two-stage captioning** (`Caption*.dfy`). `Job.Spec` says what the result of one window is: caption it, refine the
  caption once if it has a stage-2 prompt, and charge it with the tokens of every generation. The batch scheduler
  (`CaptionBatch`) and the in-flight scheduler (`CaptionInflight`) are imperative methods over request objects and an
  engine that finishes what it likes, in any order; both are proved to return `Job.Spec` in input order, so neither the
  completion order, nor the cap, nor the batch size can be seen in the result. The concurrent runner
  (`CaptionAsync*.dfy`) is a class for its dictionaries (`CaptionAsyncBooks`) and a state machine for its tasks
  (`CaptionAsync`); its theorems are about every list of events: what every step keeps (`CaptionAsyncSafety`), what a
  return means (`CaptionAsyncTheorems`), that nothing fatal is swallowed (`CaptionAsyncFatal`), and that the run ends
  (`CaptionAsyncProgress`) and can end well (`CaptionAsyncReturn`), and that what it reports was met
  (`CaptionAsyncCalls`).
* **N jobs on X workers** (`Nvcf*.dfy`). The worker is a class whose retries are proved against the exact list of calls it
  makes; the driver is a state machine over any number of sessions cut short anywhere, and an imperative loop proved to be
  one of its runs and to end. The progress file is text, read back with the line rules of the original.
* **TransNetV2 index arithmetic** (`TransNet.dfy`). Overlapping clamped windows against a single pass, the packed
  histogram against the naive one, the band gather against its definition.
* **The OCR text tracker** (`Ocr*.dfy`). Box arithmetic over exact ratios, the online tracker as functions and as objects,
  a reference tracker that never prunes, and the detectors' output said of frames, tracks and segments (`OcrSpec`).
* **The manifest printer and the mount merge** (`Manifest*.dfy`, `Mounts.dfy`). The printer, a reader for its lines after the
  sections "Keys", "Table", "Inline Table" and "Array" of TOML v1.0.0, and the round trip with its exact condition
  (`ManifestExact`, `ManifestHeaders`), and the lines themselves (`ManifestShape`); the merge as last value at first position.

Each specification that a method shares with its proof is also said a second time, in terms of the inputs alone: a result
by the engine's own output (`CaptionModel.SpecSays`), a box by its cells (`OcrGeometry.IouCountsCells`), a table by its
lines (`ManifestShape.TableIsPrinted`), and so on; the contracts of the operations carry these second forms.

`Text.dfy` and `OrderedDict.dfy` hold the string and dictionary operations several parts share.

## Assumptions

* Request ids are new each time they are made; a counter stands in for `secrets.token_hex`.
* The engine answers a given input with a given generation, reports each request it was given as finished once, and
  eventually finishes something. It may finish any subset at a step, in any order, and may report unfinished requests.
* A refined request carries no stage-2 prompt (`cosmos_curator/models/vllm_qwen.py:362-365`); decoding and refining are
  functions that may raise.
* The text of a missing caption is the field `unknown` of `Model`; the repository's is "Unknown caption"
  (`cosmos_curator/models/vllm_sentinels.py:22`).
* The requests given to one run of the concurrent runner have distinct ids. Its semaphore may be shared: other runners
  take and give back permits at any time.
* A launched NVCF request eventually polls to a terminal status. One append of a line to the progress file is one step,
  and the file is empty or ends in a line break when the driver first opens it.
* The terminal table names and the section names of the manifest are parameters: the original's are the constants at
  `tools/update_distributable_pixi.py:60-69` and the literals at `tools/update_distributable_pixi.py:216-224`.

Findings, each with its exact condition:

* A finished input is run again by the next session exactly when its path is blank, padded or holds a line break
  (`NvcfMain.ListedAgainIffNotClean`). After a write that left the last line of the log unfinished, the next input
  recorded is read back only if that line is blank (`NvcfProgress.RecordReadsIff`).
* A mount can be parsed back exactly when neither path holds a colon (`Mounts.MountRoundTrip`).
* The manifest printer does not quote keys. A header is read back exactly when every key on its path is bare
  (`ManifestTables.HeaderReadsBackIff`; `[a b]` is rejected, `ManifestTables.SpacedHeaderIsRejected`), an assignment
  exactly when its key and every key inside its value is (`ManifestTables.AssignReadsBackIff`), a table exactly when
  every key that leaves a trace is (`ManifestExact.TableReadsBackIff`), and so the whole manifest
  (`ManifestMain.ManifestReadsBackIff`).
* No header is printed twice while the keys of subtables hold no dot (`ManifestHeaders.TableHeadersDiffer`,
  `ManifestHeaders.ManifestHeadersDiffer`); any key with a dot can repeat one (`ManifestHeaders.DottedKeyRepeatsHeader`).
* Besides what the engine held before, an in-flight call that raises leaves it fewer requests than there are windows, and
  fewer than the cap if there is one (`CaptionInflight.CaptionInflightBatching`); and it may leave any such number `k` if
  one of the first `k + 1` windows fails to decode (`CaptionStale.FailureMayLeave`). So the arguments ensure that none is
  left exactly when the cap is one or there is at most one window. A later call on an engine left with one can raise for
  that reason alone, whenever the engine reports it (`CaptionStale.StaleRequestRaises`).
* A flat text box overlaps nothing and so never continues a track, not even its own (`OcrGeometry.FlatNeverMatches`).

## Model

| member | source | states |
|---|---|---|
| CaptionModel.OneAnswer | cosmos_curator/models/vllm_interface.py:826-887 | two schedulers that both yield the specified results return the same list, and then no window fails |
| CaptionModel.SpecSays | cosmos_curator/models/vllm_interface.py:252-258 | what the specified result of a window is, in the engine's own terms: the decoded text or the unknown one, the finish reason of the last generation, and the tokens of every generation; and which errors a window can raise |
| CaptionModel.YieldsSays | cosmos_curator/models/vllm_interface.py:826-887 | so the specified list is one result of that kind per window |
| CaptionModel.FullIffCount | cosmos_curator/models/vllm_interface.py:769-769 | counting results is a complete test: n recorded windows below n are all of them |
| CaptionSync.ProcessVllmOutput | cosmos_curator/models/vllm_interface.py:613-647 | it raises exactly on the first bad output, an unsupported type, an unknown id or a decoding error, said of the outputs; else it returns the finished requests in order, each filled from its last generation, and touches no other |
| CaptionSync.LlmEngine.Step | cosmos_curator/models/vllm_interface.py:776-776 | one step, never with nothing held: finishes an arbitrary set of held requests, each with the generation of its inputs, or uses up patience |
| CaptionSync.LastGenerationOf | cosmos_curator/models/vllm_interface.py:638-645 | a finished id is filled with the one generation its outputs carry |
| CaptionInflight.CaptionInflightBatching | cosmos_curator/models/vllm_interface.py:732-823 | for every completion order: the specified list in input order, said of the engine's output,, after exactly n + (number of stage-2 prompts) generations, the engine left holding what it held; it raises only what a window is specified to raise, or for a stale request of an earlier call; besides the stale requests the engine never holds more than the cap, and after an exception fewer than the windows and fewer than the cap |
| CaptionStale.FailureMayLeave | cosmos_curator/models/vllm_interface.py:769-786 | for every cap and every k below the cap and the number of windows: after k rounds in which nothing finishes, the next step may raise and leave exactly k requests |
| CaptionStale.SilentRounds | cosmos_curator/models/vllm_interface.py:769-776 | a round in which nothing finishes hands the engine one more window, in input order, while the cap allows it |
| CaptionStale.StaleRequestRaises | cosmos_curator/models/vllm_interface.py:638-638 | whatever a call has in flight, the engine may report a request an earlier call left behind, and the lookup then fails |
| CaptionInflight.Schedule | cosmos_curator/models/vllm_interface.py:769-821 | the loop ends, by results, charges, queue length and engine patience; generations made equal generations accounted for |
| CaptionInflight.Round | cosmos_curator/models/vllm_interface.py:769-821 | one iteration keeps: each unfinished window has exactly one live request, in the queue or in flight; every finished one has its specified result; the engine holds exactly what is in flight besides stale requests |
| CaptionInflight.SomethingInFlight | cosmos_curator/models/vllm_interface.py:769-776 | while a window is unfinished the queue or the in-flight dict is not empty, so the engine is never stepped in vain |
| CaptionInflight.HeldCount | cosmos_curator/models/vllm_interface.py:769-786 | the engine holds the stale requests and those in flight, and these are no more than the windows |
| CaptionInflight.Submit | cosmos_curator/models/vllm_interface.py:770-774 | the opening of a round hands over the first queued request exactly if there is one and the cap allows it, and leaves something in flight |
| CaptionInflight.HandOver | cosmos_curator/models/vllm_interface.py:771-774 | the first queued request goes to the engine under its own id; the others stay queued, and the cap still holds whatever else the engine holds |
| CaptionInflight.Receive | cosmos_curator/models/vllm_interface.py:783-786 | the finished requests leave the in-flight dict, all of them and no others, and carry their generations |
| CaptionInflight.Account | cosmos_curator/models/vllm_interface.py:788-805 | every finished request is charged to its window once, and recorded if it has no stage-2 prompt |
| CaptionInflight.FinishWindow | cosmos_curator/models/vllm_interface.py:795-805 | the last generation of a window completes it with the specified text and the summed tokens of all its generations |
| CaptionInflight.QueueRefined | cosmos_curator/models/vllm_interface.py:807-821 | each refined request joins the end of the queue under a new id that maps to the window of the request it refines |
| CaptionBatch.SplitByChunkSize | cosmos_curator/core/utils/misc/grouping.py:36-66 | an in-order partition into chunks that are all full except perhaps the last; a size below one acts as one |
| CaptionBatch.VllmGenerate | cosmos_curator/models/vllm_interface.py:578-610 | for every batch size: one output per request, in request order, under the id of the request |
| CaptionBatch.ProcessRequests | cosmos_curator/models/vllm_interface.py:691-701 | every request is finished and filled, in order, or the error is the first decoding error in request order; the count check never fails |
| CaptionBatch.SettleFirstPass | cosmos_curator/models/vllm_interface.py:706-715 | windows without a stage-2 prompt are settled, all are charged once, and exactly the others go on, in order |
| CaptionBatch.RefineAll | cosmos_curator/models/vllm_interface.py:717-720 | one refined request per remaining window, mapped to it under a new id, or the first refinement error in window order |
| CaptionBatch.SettleSecondPass | cosmos_curator/models/vllm_interface.py:722-726 | the remaining windows get their specified results with both generations charged, the others keep theirs |
| CaptionBatch.CaptionNoInflightBatching | cosmos_curator/models/vllm_interface.py:650-729 | for every batch size: the specified list, said of the engine's output, or one determined error: the first decoding error of the first pass, else the first refinement error, else the first decoding error of the second pass |
| CaptionBatch.BatchErrorIsFirst | cosmos_curator/models/vllm_interface.py:703-722 | the error is the first of the first stage that fails, in window order |
| CaptionBatch.BatchErrorIsSpecified | cosmos_curator/models/vllm_interface.py:703-722 | that error is one some window is specified to raise |
| CaptionBatch.BatchErrorIff | cosmos_curator/models/vllm_interface.py:703-722 | and there is none exactly when every window is specified to have a result |
| CaptionBatch.ResolveStage2Prompts | cosmos_curator/models/vllm_interface.py:890-900 | succeeds exactly when the prompts are omitted or as many as the inputs, and then gives the prompts, or no prompt for every input |
| CaptionBatch.VllmCaption | cosmos_curator/models/vllm_interface.py:826-887 | both schedulers give the specified list; bad arguments are rejected first; the error without in-flight batching is the determined one |
| CaptionAsyncBooks.AsyncCaptioner.SpawnTask | cosmos_curator/models/vllm_interface.py:986-999 | a task enters both dictionaries |
| CaptionAsyncBooks.AsyncCaptioner.EmitFinalResult | cosmos_curator/models/vllm_interface.py:1107-1112 | records the result, the caption or the unknown text, with the accumulated tokens and calls on_window_done once |
| CaptionAsyncBooks.AsyncCaptioner.EmitUnknownResult | cosmos_curator/models/vllm_interface.py:1114-1120 | records the sentinel with whatever tokens are charged so far and calls on_window_done once |
| CaptionAsyncBooks.AsyncCaptioner.Dispatch | cosmos_curator/models/vllm_interface.py:966-977 | an empty request is recorded at once with the sentinel, any other one gets a task |
| CaptionAsyncBooks.AsyncCaptioner.HandleCompletedTask | cosmos_curator/models/vllm_interface.py:1001-1048 | the whole new state of every dictionary and callback log, in each of its six ways to end; engine death, fatal decoding and cancellation are re-raised, and any other exception is reported |
| CaptionAsyncBooks.AsyncCaptioner.ClearPending | cosmos_curator/models/vllm_interface.py:1141-1142 | the end of the drain empties both task dictionaries and nothing else |
| CaptionAsyncSafety.StartsOk | cosmos_curator/models/vllm_interface.py:953-966 | the invariant holds when a run starts |
| CaptionAsyncSafety.EveryStepKeeps | cosmos_curator/models/vllm_interface.py:953-1142 | every step of the coroutine, of a task and of another runner keeps the invariant |
| CaptionAsyncSafety.EveryRun | cosmos_curator/models/vllm_interface.py:953-1142 | so it holds in every state of every interleaving |
| CaptionAsyncSafety.TaskStepFrame | cosmos_curator/models/vllm_interface.py:1066-1094 | an attempt takes and gives back one permit, and no step of a task touches the dictionaries |
| CaptionAsyncSafety.HandleFinal | cosmos_curator/models/vllm_interface.py:1019-1030 | the final generation of a live window ends it with the specified result and no error call |
| CaptionAsyncSafety.HandleFailure | cosmos_curator/models/vllm_interface.py:1011-1017 | a contained exception ends its window with the sentinel and exactly one error call of the right phase |
| CaptionAsyncSafety.HandleBuildFailure | cosmos_curator/models/vllm_interface.py:1038-1044 | a refinement that cannot be built does so too, and the tokens of stage 1 stay in the sentinel |
| CaptionAsyncSafety.HandleRespawn | cosmos_curator/models/vllm_interface.py:1032-1048 | a refined request takes the place of the live one of its window |
| CaptionAsyncTheorems.ReturnedRun | cosmos_curator/models/vllm_interface.py:966-984 | on return: one result per request in input order, said of the engine's output; on_window_done called exactly once per index with that result, and on_window_error exactly for sentinels that stand for an exception, never for empty inputs |
| CaptionAsyncTheorems.CleanRunYields | cosmos_curator/models/vllm_interface.py:953-1048 | with no empty input and no contained exception the list is the one of the synchronous schedulers |
| CaptionAsyncTheorems.SentinelTokens | cosmos_curator/models/vllm_interface.py:1114-1120 | a window that fails after stage 1 keeps its stage-1 tokens, one that fails before has none |
| CaptionAsyncFatal.FatalExit | cosmos_curator/models/vllm_interface.py:1006-1010 | a fatal exception that ends a run is engine death, fatal decoding or cancellation that a task of its window met, or fatal decoding or cancellation met while refining it; the window has no result and no callback |
| CaptionAsyncFatal.EveryStepFatal | cosmos_curator/models/vllm_interface.py:1001-1048 | no step lets a task that ended fatally leave the dictionaries except by raising |
| CaptionAsyncFatal.FatalIsRaised | cosmos_curator/models/vllm_interface.py:1006-1010 | a run in which some task ended by engine death, fatal decoding or cancellation never returns: once over, it has raised |
| CaptionAsyncFatal.NoFatalReported | cosmos_curator/models/vllm_interface.py:1006-1017 | none of these is ever reported as contained; building a refinement contains engine death only |
| CaptionAsyncCalls.ReportedWasMet | cosmos_curator/models/vllm_interface.py:1011-1044 | every reported exception is the outcome of a task that ran that stage of that window, or what its refinement raises |
| CaptionAsyncCalls.InterruptIsRaised | cosmos_curator/models/vllm_interface.py:966-984 | a run that is over was interrupted by an exception exactly when it raises that exception for that reason |
| CaptionAsyncTheorems.EndOfRun | cosmos_curator/models/vllm_interface.py:1122-1142 | however the run ends, both dictionaries are empty, every task is done and every permit is given back |
| CaptionAsyncTheorems.DuringRun | cosmos_curator/models/vllm_interface.py:953-999 | at every moment free permits, generating tasks and other runners' permits make up the capacity, and the two dictionaries have the same keys |
| CaptionAsyncTheorems.AttemptsBounded | cosmos_curator/models/vllm_interface.py:1061-1071 | at most max(1, max_retries) attempts per request, and no two attempts of a run share an id |
| CaptionAsyncTheorems.FailureIsExplained | cosmos_curator/models/vllm_interface.py:1061-1105 | a request gives up only on engine death, a decoding error, cancellation, or its last attempt of max(1, max_retries) |
| CaptionAsyncTheorems.EngineDeathIsFinal | cosmos_curator/models/vllm_interface.py:1061-1065 | engine death ends the attempts of a request at once and for good |
| CaptionAsyncProgress.EveryStepShrinks | cosmos_curator/models/vllm_interface.py:966-984 | every own step of a run makes a measure smaller, so no schedule goes on for ever |
| CaptionAsyncProgress.NeverStuck | cosmos_curator/models/vllm_interface.py:966-984 | until the run is over a step of its own is possible unless other runners hold every permit; no dictionary lookup fails |
| CaptionAsyncProgress.Completes | cosmos_curator/models/vllm_interface.py:966-984 | from every reachable state the run can be brought to an end, however much has gone wrong |
| CaptionAsyncReturn.CanReturn | cosmos_curator/models/vllm_interface.py:966-984 | and, if no task has died and the windows hold nothing fatal, to its normal return by steps that fail no attempt |
| NvcfWorker.Worker.SubmitJob | examples/workflow/operate_nvcf_functions.py:138-171 | up to five failed invocations, each followed by a termination, then one that succeeds, or a sixth that raises |
| NvcfWorker.Worker.AddJob | examples/workflow/operate_nvcf_functions.py:189-195 | an idle worker takes the job with rerun count 0 and launches it once |
| NvcfWorker.Worker.CheckJobStatus | examples/workflow/operate_nvcf_functions.py:204-233 | up to five useless answers, then a status, or a sixth that raises |
| NvcfWorker.Worker.PollJob | examples/workflow/operate_nvcf_functions.py:235-264 | the new state of the worker and the calls made, for every status; a failed job is launched again until its fifth failure, and is then given up; a finished worker is idle with every field cleared |
| NvcfProgress.ReadProgressFile | examples/workflow/operate_nvcf_functions.py:267-276 | an input is finished exactly when some line of the file is that input between white space |
| NvcfProgress.EntriesAreNamed | examples/workflow/operate_nvcf_functions.py:267-276 | lines lie between line breaks of either kind; white space is all of Unicode's |
| NvcfProgress.RecordReads | examples/workflow/operate_nvcf_functions.py:325-327 | after an intact log a recorded input is read back exactly when its path is clean, and then nothing else is added |
| NvcfProgress.RecordReadsIff | examples/workflow/operate_nvcf_functions.py:325-327 | after any log, even one whose last line was torn, it is read back exactly when a finished line names it or its path is clean and the last line blank |
| NvcfProgress.BuildInputList | examples/workflow/operate_nvcf_functions.py:279-294 | the ordered job dictionary: one job per listed input that is not finished, with the number and the output path of the last place where the input is listed, in the order of the first places |
| NvcfProgress.JobListSpec | examples/workflow/operate_nvcf_functions.py:279-294 | every listed input that the log does not name, exactly once, under its own path, with its own output path |
| NvcfDriver.EveryEventKeeps | examples/workflow/operate_nvcf_functions.py:308-329 | assigning, polling, recording, raising and restarting keep conservation, order, launch counts and the log |
| NvcfDriver.EveryRun | examples/workflow/operate_nvcf_functions.py:308-329 | so they hold in every state of every sequence of sessions cut short anywhere |
| NvcfDriver.WorkersDiffer | examples/workflow/operate_nvcf_functions.py:315-320 | no two workers hold the same input |
| NvcfDriver.SaveLog | examples/workflow/operate_nvcf_functions.py:322-327 | a clean input is recorded for the first time and read back from then on |
| NvcfMain.OneFate | examples/workflow/operate_nvcf_functions.py:314-329 | every job of a session is pending, held, about to be recorded, recorded or given up: exactly one of these |
| NvcfMain.SessionLaunches | examples/workflow/operate_nvcf_functions.py:235-294 | in a session no input named by the log at start-up is launched, none more than five times, none is given up before its fifth launch, and jobs start in list order |
| NvcfMain.RecordedOnce | examples/workflow/operate_nvcf_functions.py:322-327 | over any sessions, what is recorded was fulfilled, and a clean input is recorded at most once |
| NvcfMain.FileGrows | examples/workflow/operate_nvcf_functions.py:325-327 | the progress file is the file there was followed by one line per recorded input |
| NvcfMain.ListedAgainIffNotClean | examples/workflow/operate_nvcf_functions.py:267-294 | after an input is recorded the next session lists it again exactly when its path is not clean |
| NvcfMain.VisitAll | examples/workflow/operate_nvcf_functions.py:315-327 | one pass over the workers leaves less work, or as much work and less patience |
| NvcfMain.Operate | examples/workflow/operate_nvcf_functions.py:308-329 | the driver ends; its run is one of the state machine over the listed jobs, in order and with their own outputs, none launched more than five times; on success every worker is idle and every listed input is recorded or given up once |
| NvcfMain.NoWorkerNoProgress | examples/workflow/operate_nvcf_functions.py:314-329 | with no worker nothing but a restart ever happens, so with a job pending the driver does not end |
| TransNet.FrameWindows | cosmos_curator/models/transnetv2.py:553-560 | one 100-frame window per started stride of 50, from 25 frames before it on, the first and the last frame repeated beyond the ends; an error exactly for no frames |
| TransNet.PredictTransitions | cosmos_curator/models/transnetv2.py:563-578 | one answer per frame, from the frame's own window, for every batch size; for a network whose central scores read 25 frames either side, the answer of the 51 frames around it in the edge-repeated video; the errors |
| TransNet.WindowsAreSinglePass | cosmos_curator/models/transnetv2.py:553-578 | for a network whose central scores read 25 frames either side, the windows agree with a single pass over the edge-repeated video |
| TransNet.IndicesInBounds | cosmos_curator/models/transnetv2.py:526-538 | every gather index stays within the padded row |
| TransNet.GatherIsBand | cosmos_curator/models/transnetv2.py:409-433 | entry (t, l) is the similarity of frames t and t + l - h if the latter exists, and zero if not |
| TransNet.BandIsSymmetric | cosmos_curator/models/transnetv2.py:514-538 | entry (t, l) equals entry (t + l - h, 2h - l) whenever both frames exist |
| TransNet.SimilaritiesAreSymmetric | cosmos_curator/models/transnetv2.py:515-515 | products of feature rows are symmetric |
| TransNet.DotSnoc | cosmos_curator/models/transnetv2.py:515-515 | a product of feature rows sums the products of their components |
| TransNet.ScatterOnes | cosmos_curator/models/transnetv2.py:491-496 | scattering ones into a zeroed buffer counts the occurrences of each index |
| TransNet.BinEncodes | cosmos_curator/models/transnetv2.py:469-481 | a bin number is below 512 and encodes exactly the top three bits of the channels |
| TransNet.BinnedInBounds | cosmos_curator/models/transnetv2.py:487-489 | every scatter index is in bounds |
| TransNet.PackedIsNaive | cosmos_curator/models/transnetv2.py:465-498 | cell (f, bin) counts the pixels of frame f with that bin: frames never share a cell |
| TransNet.ComputeColorHistograms | cosmos_curator/models/transnetv2.py:465-498 | the in-place packed histogram is the naive one: a cell counts the pixels of its frame whose channels lie in its eighths of their range |
| TransNet.RowSumIsArea | cosmos_curator/models/transnetv2.py:491-498 | each frame's cells sum to its number of pixels |
| OcrGeometry.CornersAreWellFormed | cosmos_curator/models/paddle_ocr.py:69-77 | every computed box is well-formed and spans the truncated points |
| OcrGeometry.CornersSay | cosmos_curator/models/paddle_ocr.py:69-77 | the box of four points is bounded by the least and greatest truncated coordinates, and any other list gives the box at the origin |
| OcrGeometry.IouSymmetric | cosmos_curator/models/paddle_ocr.py:80-93 | IoU is symmetric |
| OcrGeometry.IouCountsCells | cosmos_curator/models/paddle_ocr.py:80-93 | the ratio is the number of unit cells two boxes share over the number of cells of either |
| OcrGeometry.IouBounded | cosmos_curator/models/paddle_ocr.py:80-93 | IoU of well-formed boxes lies between 0 and 1 |
| OcrGeometry.IouSelf | cosmos_curator/models/paddle_ocr.py:80-93 | a box matches itself exactly when it has an area |
| OcrGeometry.FlatNeverMatches | cosmos_curator/models/paddle_ocr.py:80-93 | a flat box has no overlap with any well-formed box |
| OcrGeometry.CornerZoneIsSymmetric | cosmos_curator/models/paddle_ocr.py:96-116 | the four corners are treated alike |
| OcrGeometry.CornerZoneSays | cosmos_curator/models/paddle_ocr.py:96-116 | a box is in a corner exactly when its centre is within the margin of a vertical and of a horizontal edge |
| OcrTracks.PruningChangesNothing | cosmos_curator/models/paddle_ocr.py:203-233 | the active tracks are the surviving tracks of a tracker that keeps all, with the same histories in the same order, and the retired ones are its stale tracks |
| OcrTracks.ClassifiedOnce | cosmos_curator/models/paddle_ocr.py:203-246 | every track of that tracker is classified, exactly once |
| OcrTracks.EveryTrackOk | cosmos_curator/models/paddle_ocr.py:203-233 | in every track consecutive boxes overlap by at least 0.9 and frame numbers do not decrease and differ by at most five intervals |
| OcrTracks.ConfirmedIffLongEnough | cosmos_curator/models/paddle_ocr.py:137-159 | for a threshold of at most 0.9 a track is confirmed exactly when it meets the duration bound, in sampled frames |
| OcrTracks.LengthsSumToDetections | cosmos_curator/models/paddle_ocr.py:221-233 | the lengths of all tracks sum to the number of detections |
| OcrDetectors.TextTrack.Update | cosmos_curator/models/paddle_ocr.py:128-132 | the detection joins the history of the track |
| OcrDetectors.TextTrack.CheckIfStableText | cosmos_curator/models/paddle_ocr.py:146-159 | the verdict, from the duration in sampled frames and the mean overlap of consecutive boxes |
| OcrDetectors.StableTextDetector.ProcessFrame | cosmos_curator/models/paddle_ocr.py:203-233 | tracks not seen for more than five intervals are classified and dropped, then each detection in turn extends the first track whose last box it overlaps by 0.9, or starts one |
| OcrDetectors.StableTextDetector.Analyze | cosmos_curator/models/paddle_ocr.py:248-253 | the segments are those of the stable tracks of these frames, with their frames, times and mean overlap, whatever was analyzed before |
| OcrSpec.FrameSays | cosmos_curator/models/paddle_ocr.py:203-233 | what a frame does to the tracks, step by step |
| OcrSpec.OneRun | cosmos_curator/models/paddle_ocr.py:203-233 | and it can do nothing else |
| OcrDetectors.CornerTextDetector.Detect | cosmos_curator/models/paddle_ocr.py:274-314 | one single-frame segment per frame with a detection in a corner, in order, if these exceed the configured share of the frames with detections, and else none |
| OcrDetectors.CornerFramesSpec | cosmos_curator/models/paddle_ocr.py:283-311 | the corner frames are exactly the frames with a detection in a corner |
| OcrDetectors.CornerFramesOrdered | cosmos_curator/models/paddle_ocr.py:283-311 | they are in frame order |
| OcrDetectors.ArtificialTextDetector.Create | cosmos_curator/models/paddle_ocr.py:334-366 | which settings are rejected and how; an accepted detector carries the settings given |
| OcrDetectors.ArtificialTextDetector.Detect | cosmos_curator/models/paddle_ocr.py:368-414 | frames numbered and timed in order, with the usable boxes; their stable segments, then the corner segments exactly when corner detection is on and their share exceeds the ratio; none with the corner region ignored |
| ManifestValues.FormatsIffSupported | tools/update_distributable_pixi.py:252-264 | printing raises exactly on a value that is, or holds, one of an unsupported kind |
| ManifestValues.ValueReadsBack | tools/update_distributable_pixi.py:252-264 | every printed value, with nested arrays and inline tables, reads back as itself if its keys are bare |
| ManifestValues.ValueReadsBackIff | tools/update_distributable_pixi.py:252-264 | and exactly then, whatever follows it |
| ManifestTables.HeaderReadsBackIff | tools/update_distributable_pixi.py:239-239 | a header that is new opens its own table exactly when every key on its path is bare |
| ManifestTables.SpacedHeaderIsRejected | tools/update_distributable_pixi.py:239-239 | a header with a space in a key is rejected |
| ManifestTables.AssignReadsBackIff | tools/update_distributable_pixi.py:240-241 | an assignment gives its value back exactly when its key and every key inside the value is bare |
| ManifestTables.OwnReads | tools/update_distributable_pixi.py:238-242 | the header and assignments of a table read back as its values, in order |
| ManifestTables.TableReads | tools/update_distributable_pixi.py:228-249 | the lines of a table with bare keys read back as that table, at any depth and below any terminal name |
| ManifestExact.TableReadsBackIff | tools/update_distributable_pixi.py:228-249 | the lines of a table read back as that table exactly when every key that leaves a trace in them is bare |
| ManifestMain.NormalHolds | tools/update_distributable_pixi.py:228-245 | key by key, what is read back is the original without the subtables that hold nothing |
| ManifestMain.NormalHoldsNoMore | tools/update_distributable_pixi.py:228-245 | and it holds no other key |
| ManifestMain.NormalEmptyIff | tools/update_distributable_pixi.py:238-245 | a table leaves no trace exactly when it is recursively free of entries |
| ManifestHeaders.TableHeadersDiffer | tools/update_distributable_pixi.py:239-239 | no header is printed twice for a table whose subtables' keys hold no dot |
| ManifestHeaders.ManifestHeadersDiffer | tools/update_distributable_pixi.py:211-239 | nor in the whole manifest |
| ManifestHeaders.DottedKeyRepeatsHeader | tools/update_distributable_pixi.py:228-245 | with a dot in a key the same header is printed twice, for any two keys around the dot |
| ManifestMain.ManifestLines.AppendTable | tools/update_distributable_pixi.py:228-245 | the printer appends the lines of the table, or raises exactly for an unsupported value: below a terminal name everything under one header, dictionaries inline; elsewhere the other values under the header and each dictionary as a table of its own |
| ManifestShape.TableIsPrinted | tools/update_distributable_pixi.py:228-249 | the printed lines have just that shape, at every depth |
| ManifestShape.ValueIsWritten | tools/update_distributable_pixi.py:252-264 | a value is one token, a bracketed list or a braced list of pairs |
| ManifestMain.ManifestReadsBackIff | tools/update_distributable_pixi.py:211-225 | the rendered manifest reads back (at the path of each section its table without what holds nothing, and beside the sections nothing but the tables on their paths) exactly when every key that leaves a trace in it is bare |
| ManifestMain.RenderManifest | tools/update_distributable_pixi.py:211-225 | the lines of the workspace, the activation table unless empty, the dependencies, the features and the environments, in this order; it raises exactly for an unsupported value in one of them |
| OrderedDict.FromItemsSpec | cosmos_curator/client/slurm_cli/slurm_common.py:209-220 | a dictionary filled by writes holds each key once, with its last value at its first position |
| Mounts.MountRoundTrip | cosmos_curator/client/slurm_cli/slurm_common.py:137-163 | a mount is parsed back exactly when neither path holds a colon, and is otherwise rejected |
| Mounts.FromStrSays | cosmos_curator/client/slurm_cli/slurm_common.py:137-159 | one colon gives a mount that can be written, two name the mode, which must be rw or ro, and any other number is an error |
| Mounts.MountTextsSay | cosmos_curator/client/slurm_cli/slurm_common.py:199-202 | commas separate mounts, white space around them does not count, and blank entries are skipped |
| Mounts.ParseMountsSays | cosmos_curator/client/slurm_cli/slurm_common.py:205-206 | either every text is a mount or the first that is none decides the error |
| Mounts.MergeMountSpecsByDestination | cosmos_curator/client/slurm_cli/slurm_common.py:209-220 | one mount per destination, the last one given at the position of the first |
| Mounts.NestedMergeIsOneMerge | cosmos_curator/client/slurm_cli/slurm_submit.py:767-774 | merging a merged list with more mounts is one merge of everything |
| Mounts.MergeIdempotent | cosmos_curator/client/slurm_cli/slurm_common.py:253-261 | merging twice is merging once |
| Mounts.SubmitMounts | cosmos_curator/client/slurm_cli/slurm_submit.py:767-774 | the nested merges of the submit command are one merge of all its mounts |
| Mounts.RemoteFilesMountIdempotent | cosmos_curator/client/slurm_cli/slurm_submit.py:551-565 | the remote-files mount is there afterwards, and adding it again changes nothing |
| Mounts.RemoteFilesMountSays | cosmos_curator/client/slurm_cli/slurm_submit.py:551-565 | it is written over the mount that has its destination or else added at the end, and the other mounts stay |

## Left out

- Prompt construction, chat templates, debug frames, tracing spans and statistics of the captioning module; they do not reach the scheduling state.
- Releasing inputs in the concurrent runner (`req.inputs = None`) and rebuilding the payload's outer dict before an attempt: memory, not results.
- Callbacks that raise, and a second cancellation during the drain. A request iterable that raises, and cancellation while waiting, are the event `Interrupt`.
- How tenacity reacts to a cancellation: a cancelled task ends at once or takes further steps of any kind, a renewed attempt being an ordinary failed one.
- Subprocess calls, sleeps, JSON files and the parsing of command output in the NVCF driver; a command answers with a valid request id or not, with a known status or not. The driver's theorems assume that a log line is written whole; `NvcfProgress.RecordReadsIff` says what one partly written does.
- The neural layers, normalization, tensor devices and the shape check of a frame array in transnetv2.py; scores are uninterpreted reals, and a frame array is a sequence of frames.
- Floating-point rounding in paddle_ocr.py, including the rounding of times and of the reported mean IoU; ratios are exact.
- Character-level printing of strings and numbers in the manifest; a string or number is one token, and integers stand for all numbers. The comment line and the trailing blank lines of the file are blank lines here.
- `_build_distributable_config`, `_redistributable_media_feature`, the lock file commands and the diff printing of the manifest tool: selection and replacement of fixed keys, which would only add easy members.
- `_environment_entries_to_map`, `_dedupe`, the mounts derived from a runtime's paths, SSH and sbatch rendering of the Slurm commands; they would only add easy members or are input and output.
