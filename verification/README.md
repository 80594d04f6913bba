# VibeNote daemon: a verified model

This project models five parts of the VibeNote daemon and proves what they promise:

- the **task scheduler** (`TaskQueue`): three priority deques, a slot limit per task type,
  an in-flight table, round-robin between Normal and Low, a pause flag, and the mutex and
  condition variable around them;
- the **GPU guard** (`GpuGuard`): a hysteresis state machine fed with NVML answers, its
  throttle signals, and the number of layers to offload;
- the **streaming reader** (`LlamaClient::onReadyRead`): frames cut out of a byte stream and
  dispatched to the callbacks of concurrent requests;
- the **CSV exporters**: escaping, rows, documents, and the switch to a new part file;
- the **frame difference** used to detect screen changes.

`dafny verify dfyconfig.toml` checks everything.

## How it is built

| file | content |
|---|---|
| Scheduler.dfy | the scheduler as a state machine, selection, one function per critical section, runs with history |
| SchedulerInvariants.dfy | FIFO per class, slot accounting, conservation, depth, over every run |
| ServiceOrder.dfy | limits, refusals and turns, told from the configuration, the tasks and the history |
| BoundedBypass.dfy | how long a Normal or Low task can be passed over, and that the bound is exact |
| SlotLeaks.dfy | when slots are lost, that they stay lost, and which callers lose none |
| TaskQueue.dfy | `TaskQueue` as a class, each method proved against the state machine |
| Capacity.dfy, WakeProtocol.dfy | the condition-variable protocol with sleeping and notified threads |
| GpuGuard.dfy | the guard, its signal log, flapping, layers, and the class |
| GuardedQueue.dfy | scheduler, wake-up protocol and guard composed |
| PollHistory.dfy | throttle flag and lost wake-ups told from the sequence of NVML replies |
| Framing.dfy, StreamReader.dfy | the frame splitter, dispatch, delivery, and the class |
| Utf8.dfy | UTF-8 (section 3 of RFC 3629), with a strict decoder |
| CsvFormat.dfy | escaping, rows, documents, and an RFC 4180 reader that must undo them |
| CsvParts.dfy | the text of every file written, what a reader of its bytes finds, and file sizes |
| CsvExport.dfy | rows of notes and prompts, file names, and the two exporters |
| FrameDiff.dfy | the nested-loop sum and its metric laws |

Objects that the source updates in place are classes (`TaskQueue`, `GpuGuard`,
`LlamaClient`, and `PromptWriter` for the variables captured by the row-writing lambda).
Their methods are proved equal to functions on values; the laws are lemmas about those
functions over all inputs, runs and interleavings. What both exporters do after formatting a
line is one method here, `WriteLine`.

The answers of NVML, the verdict of `open` on a part file, the position `pos()` reports and
the JSON parser are inputs of the model; what the reader takes out of a parsed value is
modelled. Emitted signals and callback calls are kept as logs; the files of an export are
kept as the text written to them, and read as the bytes of that text in UTF-8. Bytes on the
wire and on disk, column names, sizes and limits are given as literals where a result is
about them. Utilisation is a whole percent; thresholds, frame scores and
the hysteresis are real numbers.

## What the code does not meet

- **Wake-ups.** No wake-up is lost as long as the guard's verdict turns true only together
  with a `setPaused` call. The guard breaks this in one situation, `SilentRise`: it is not
  throttled, refuses work, and a poll brings figures inside the limits. Told from the replies
  of NVML (`SilentAt`): a reply inside the limits, with no overload that was not relaxed
  since, that is the first one or follows one exactly at the threshold. A thread that went to
  sleep before is then not woken. `WakeupsLostIffSilentReply` shows, for every sequence of
  replies, that a wake-up can be lost iff it has such a reply; `SilentReplyLosesWakeup` gives
  the run.
- **Slots.** Dispatching a task whose id is still in flight overwrites the only record of the
  slot taken first. That slot is never given back, in any continuation (`LostSlotsStayLost`);
  `SameIdLosesSlot` exhibits it. Once all slots of a type are lost it is dead
  (`LostTypeIsDead`), and every configuration with two usable types has such a run
  (`TypeCanDie`). Counts are exact and no task is unaccounted for iff no id is handed out
  while in flight (`SlotsExactIffNoReuse`, `NoTaskLostIffNoReuse`); never enqueueing an id
  that is still queued or in flight is enough (`FreshIdsSuffice`).
- **Streams.** A `[DONE]` ends the request of the latest event, whichever request it was
  meant for, so interleaved streams can lose tokens (`FullDeliveryCondition`,
  `InterleavingLosesTokens`). A stream that is only `[DONE]` ends nothing: without a latest id
  its callback stays in the table (`RequestLeavesIffItSpoke`).
- **CSV.** The replacement for a quote, written as two adjacent empty literals, deletes
  quotes, while AGENT.md:354 asks for RFC 4180. The replacement is a parameter: doubled quotes
  make the export read back as it was; as written it does so exactly for quote-free notes
  (`NotesReadBack`, `NotesReadBackAsWritten`, `PromptsReadBack`, `PromptsReadBackAsWritten`).
- **Layers.** The cast of the quotient to `int` keeps the layer count optimal exactly when
  `CastIsHarmless` holds (`LayersAreOptimal`); `CastLosesAllLayers` is a poll after which all
  32 layers fit and none is chosen.

## Model

| member | source | states |
|---|---|---|
| Scheduler.FirstReady | daemon/src/queue.cpp:184-196 | the scan finds the first task whose type has a free slot; none is ready if it finds nothing |
| Scheduler.SelectIsExact | daemon/src/queue.cpp:147-196 | a task is selected iff some queued task is ready, and it is the one and only task that may be served next: first ready of High, else of the deque `rr_index_` points at, else of the other |
| Scheduler.PickIsTotal | daemon/src/queue.cpp:103-108 | when the wait predicate holds, the optional that `dequeue` dereferences is not empty |
| TaskQueueObject.TaskQueue.constructor | daemon/src/queue.cpp:81-85 | a new queue is empty, with nothing running or in flight, not paused, and Normal next |
| TaskQueueObject.TaskQueue.TotalQueuedUnlocked | daemon/src/queue.cpp:198-204 | the loop adds up the three deques |
| TaskQueueObject.TaskQueue.EnqueueLocked | daemon/src/queue.cpp:92-101 | the task is accepted iff fewer than the configured number are queued, and then goes to the end of the deque of its priority; nothing else changes |
| TaskQueueObject.TaskQueue.Enqueue | daemon/src/queue.cpp:92-101 | true iff fewer than the configured number of tasks are queued; every scheduler invariant is kept and the accepted history extended exactly then |
| TaskQueueObject.TaskQueue.CanRunUnlocked | daemon/src/queue.cpp:147-165 | true iff not paused, a guard has figures strictly inside its limits, and some queued task is of a configured type with fewer running than configured |
| TaskQueueObject.TaskQueue.FindReadyTask | daemon/src/queue.cpp:184-196 | erases and returns the first task of a deque whose type runs below its configured number, or there is none and nothing changes |
| TaskQueueObject.TaskQueue.PopNextTaskUnlocked | daemon/src/queue.cpp:167-182 | removes exactly the selected task and turns `rr_index_` to the deque not served; with nothing ready, deques and pointer are unchanged |
| TaskQueueObject.TaskQueue.DequeueLocked | daemon/src/queue.cpp:103-113 | a task is returned iff the wait predicate held; its type ran below its configured number, and its slot and in-flight entry are recorded |
| TaskQueueObject.TaskQueue.Dequeue | daemon/src/queue.cpp:103-113 | one pass of `dequeue` keeps every scheduler invariant, never exceeds the configured number, and extends the dispatched history by what it returns |
| TaskQueueObject.TaskQueue.TaskCompleted | daemon/src/queue.cpp:115-127 | completion of an id in flight removes its entry and lowers the count of its type by one; unknown ids change nothing; every invariant is kept |
| TaskQueueObject.TaskQueue.SetPaused | daemon/src/queue.cpp:129-133 | stores the flag and changes nothing else |
| TaskQueueObject.PollAndDeliver | daemon/src/queue.cpp:87-89 | with each signal delivered as a pause, the queue is paused iff the guard is throttled after every poll |
| ServiceOrder.RunningWithinConfiguration | daemon/src/queue.cpp:147-165 | over every run, no more tasks of a type run than the configuration allows, none if it does not mention the type |
| ServiceOrder.AllAcceptedUpToDepth | daemon/src/queue.cpp:92-101 | any list of tasks up to the configured depth is accepted in full, in order |
| ServiceOrder.RefusedIffFull | daemon/src/queue.cpp:92-101 | in every reachable state an enqueue is refused iff exactly the configured number of tasks is queued |
| ServiceOrder.ServedInTurn | daemon/src/queue.cpp:103-196 | in every reachable state a dequeue hands out a High task if one can run, else one of the priority, Normal or Low, that was not served last, else the other, and nothing iff paused, refused or nothing can run; it is the first of its deque that can run |
| SchedulerInvariants.RemovalKeepsClassOrder | daemon/src/queue.cpp:184-192 | erasing a task from the middle of a deque keeps every class of tasks in order when the tasks ahead are of other types |
| SchedulerInvariants.InvariantOverRuns | daemon/src/queue.cpp:92-135 | FIFO, slot accounting, conservation and the depth bound hold after every run of enqueues, dequeues, completions and pauses |
| SchedulerInvariants.FifoOverRuns | daemon/src/queue.cpp:92-113 | per priority and type, the dispatched tasks are a prefix of the accepted ones and the deque holds the rest, in order |
| SlotLeaks.SlotsOverRuns | daemon/src/queue.cpp:103-127 | a running count is the in-flight count plus the number of times an in-flight id of that type was handed out again, and never over the limit |
| SlotLeaks.SlotsExactIffNoReuse | daemon/src/queue.cpp:103-127 | all running counts equal the in-flight counts iff no id was handed out while in flight |
| SlotLeaks.NoTaskLostIffNoReuse | daemon/src/queue.cpp:92-127 | every accepted task is queued, in flight or completed iff no id was handed out while in flight |
| SlotLeaks.FreshIdsSuffice | daemon/src/queue.cpp:92-111 | callers that never enqueue an id that is queued or in flight never have an in-flight id handed out |
| SlotLeaks.LostSlotsStayLost | daemon/src/queue.cpp:115-125 | no continuation gives a lost slot back: it counts against the limit beside the tasks in flight |
| SlotLeaks.LostTypeIsDead | daemon/src/queue.cpp:184-196 | once as many slots of a type are lost as its limit allows, no task of that type is ever handed out |
| SlotLeaks.SameIdLosesSlot | daemon/src/queue.cpp:108-125 | two tasks with one id, one completion: nothing is queued or in flight, and a slot is taken |
| SlotLeaks.TypeCanDie | daemon/src/queue.cpp:92-127 | for any two usable types a run ends idle with all slots of one taken, and no continuation hands out that type |
| SlotLeaks.OverwrittenIffReused | daemon/src/queue.cpp:108-111 | over any run, some in-flight entry is overwritten iff an id is handed out while in flight |
| SchedulerInvariants.CompletionFreesSlot | daemon/src/queue.cpp:115-125 | completing a known id always finds a positive count and frees one slot |
| SchedulerInvariants.ConservationOverRuns | daemon/src/queue.cpp:92-127 | accepted tasks are the multiset sum of queued, in-flight, completed and overwritten ones, and never more than the depth limit are queued |
| BoundedBypass.MovedFollows | daemon/src/queue.cpp:184-196 | a task is followed through each event: it is at the new place, or it is what was handed out |
| BoundedBypass.WaitingFollows | daemon/src/queue.cpp:92-113 | after a run the followed task waits at the computed place or is among the tasks handed out |
| BoundedBypass.BypassMeasure | daemon/src/queue.cpp:167-196 | every hand-out from Normal or Low uses up at least one of the turns a waiting task can be passed over |
| BoundedBypass.BypassIsBounded | daemon/src/queue.cpp:167-196 | a Normal or Low task with i tasks ahead and a free slot at every hand-out is dispatched within 2i + 2 hand-outs from those deques (2i + 1 at its own turn) |
| BoundedBypass.BypassBoundIsTight | daemon/src/queue.cpp:172-180 | with a backlog in both deques and a free slot at every hand-out, the task waits through all but the last of these hand-outs |
| BoundedBypass.TypeWithoutSlotsNeverRuns | daemon/src/queue.cpp:186-189 | a task whose type is missing from the configuration, or has limit zero, is never handed out, in any run |
| Capacity.DispatchablePositive | daemon/src/queue.cpp:147-165 | the number of tasks that can be handed out is positive iff the wait predicate is true |
| Capacity.DispatchableAfterAppend | daemon/src/queue.cpp:97-99 | one enqueue makes at most one more task dispatchable, so one notification is enough |
| Capacity.DispatchableAfterDispatch | daemon/src/queue.cpp:106-110 | one dispatch uses up exactly one |
| WakeProtocol.ActionKeepsInvariant | daemon/src/queue.cpp:92-135 | every critical section keeps: nobody sleeps, or a pause notification is pending, or at least as many threads are notified as tasks can be handed out |
| WakeProtocol.WhoIsWoken | daemon/src/queue.cpp:92-135 | an accepted task wakes one sleeper if there is one, a refused one nobody; completions and pauses wake all |
| WakeProtocol.SleepersHaveNothingToDo | daemon/src/queue.cpp:103-105 | over every run with announced verdicts, threads that sleep with nobody notified and nothing pending have a false wait predicate |
| WakeProtocol.ResumedThreadsDrain | daemon/src/queue.cpp:103-113 | n notified threads, in any order, hand out n tasks or all that can be handed out |
| WakeProtocol.NothingLeftForSleepers | daemon/src/queue.cpp:103-135 | once every notified thread has run, nothing is dispatchable for those that still sleep |
| GpuGuardModel.GpuGuard.constructor | daemon/src/gpu_guard.cpp:49-50 | a new guard is unthrottled, has zero figures and has not signalled |
| GpuGuardModel.GpuGuard.Start | daemon/src/gpu_guard.cpp:52-65 | with a device monitoring starts; without one the guard throttles for good and signals once |
| GpuGuardModel.GpuGuard.PollGpu | daemon/src/gpu_guard.cpp:67-111 | after an answered poll the stored figures are whole mebibytes of the bytes reported, the flag is set iff utilisation or free bytes demand it or it was set and is not inside the band, and a signal is sent iff it changed; an unanswered poll ends monitoring throttled |
| GpuGuardModel.VerdictAfterPoll | daemon/src/gpu_guard.cpp:103-118 | after a successful poll an unthrottled guard refuses work iff utilisation equals the threshold, and a throttled one would accept it iff it is inside the hysteresis band |
| GpuGuardModel.VerdictInBytes | daemon/src/gpu_guard.cpp:93-118 | after a poll, work is accepted iff NVML answered and the figures in bytes are strictly inside the limits |
| GpuGuardModel.SilentRiseIsExact | daemon/src/gpu_guard.cpp:93-118 | the verdict of an unthrottled guard turns true, without a signal, exactly at a silent rise |
| GpuGuardModel.SilentRiseOrigin | daemon/src/gpu_guard.cpp:103-118 | a silent rise after another poll means that that poll was exactly at the threshold |
| GpuGuardModel.FirstPollRisesSilently | daemon/src/gpu_guard.cpp:52-65 | the first poll of a fresh guard is a silent rise iff it finds the GPU inside its limits |
| PollHistory.FlagIsHistory | daemon/src/gpu_guard.cpp:93-111 | after any answered polls the guard is throttled iff some sample was overloaded and none after it relaxed |
| PollHistory.SilentRiseIsHistory | daemon/src/gpu_guard.cpp:52-118 | over every sequence of replies, the silent rises are the replies inside the limits, while not throttled, that come first or right after one at the threshold |
| GpuGuardModel.SignalsAlternate | daemon/src/gpu_guard.cpp:52-111 | after one initialisation the signals of any run are true, false, true, ... and at most one final true after a failure; the flag is the parity of the log |
| GpuGuardModel.WithoutDevice | daemon/src/gpu_guard.cpp:52-60 | without a device the one signal is a throttle, and after any replies the guard is throttled and refuses work |
| GpuGuardModel.FailureIsFinal | daemon/src/gpu_guard.cpp:67-91 | a failed guard never signals and never accepts work again |
| GpuGuardModel.AvailableIffAllAnswered | daemon/src/gpu_guard.cpp:67-91 | a guard stays available exactly as long as every NVML call succeeds |
| GpuGuardModel.FlappingCostsVariation | daemon/src/gpu_guard.cpp:103-110 | with ample memory, m switches cost a total variation of at least 11 (m - 1) percent, 12 (m - 1) for whole thresholds |
| GpuGuardModel.FlappingBoundIsTight | daemon/src/gpu_guard.cpp:103-110 | for every m some run costs exactly that |
| GpuGuardModel.LayersAreOptimal | daemon/src/gpu_guard.cpp:120-137 | the result is the greatest number of layers up to 32 that fits the usable memory, iff the cast to int does no harm |
| GpuGuardModel.CastLosesAllLayers | daemon/src/gpu_guard.cpp:120-137 | a poll with 2^31 MiB above the headroom gives 0 layers of a model of one MiB, although all 32 fit |
| GpuGuardModel.NoLayers | daemon/src/gpu_guard.cpp:120-125 | no layers without NVML, without a model size or without headroom |
| GpuGuardModel.AllLayers | daemon/src/gpu_guard.cpp:126-137 | 32 layers when the model fits and each layer has a megabyte |
| GpuGuardModel.LayersFitInMemory | daemon/src/gpu_guard.cpp:126-136 | n layers satisfy n * size <= 32 * usable + 31 * n despite the rounded size per layer |
| GpuGuardModel.LayersUseTheMemory | daemon/src/gpu_guard.cpp:126-136 | unless all 32 layers are chosen, the real share of one more layer exceeds the usable memory |
| GpuGuardModel.LayersAreMonotone | daemon/src/gpu_guard.cpp:120-137 | more free memory, a smaller model or a smaller headroom never gives fewer layers |
| GuardedQueue.PausedIsThrottled | daemon/src/queue.cpp:87-89 | in every reachable state the pause flag equals the throttle flag, up to the one signal on its way |
| GuardedQueue.NoWakeupLost | daemon/src/queue.cpp:87-135 | a daemon whose polls are never silent rises loses no wake-up in any run |
| GuardedQueue.PollIsSafeIffNotSilent | daemon/src/gpu_guard.cpp:93-118 | a poll keeps the wake-up invariant of every daemon iff it is not a silent rise |
| GuardedQueue.FirstPollLosesWakeup | daemon/src/gpu_guard.cpp:52-118 | for every threshold, the first poll inside the limits strands a sleeping thread with a task to hand out |
| GuardedQueue.PollAfterThresholdLosesWakeup | daemon/src/gpu_guard.cpp:103-118 | so does a poll inside the limits after one exactly at the threshold |
| PollHistory.SilentReplyLosesWakeup | daemon/src/gpu_guard.cpp:52-118 | after any history of replies, a silent reply strands a sleeping thread with a task to hand out |
| PollHistory.WakeupsLostIffSilentReply | daemon/src/queue.cpp:87-135 | a daemon that gets these replies has a run that loses a wake-up iff one of them is silent |
| GuardedQueue.ThrottledHandsOutNothing | daemon/src/gpu_guard.cpp:103-110 | from a throttle signal on, no task is handed out until a poll shows utilisation below the band and memory above the headroom |
| GuardedQueue.FailedHandsOutNothing | daemon/src/gpu_guard.cpp:67-69 | a daemon whose guard has no NVML never hands out a task |
| GuardedQueue.NvmlFailureStopsWork | daemon/src/gpu_guard.cpp:73-91 | after a poll with either NVML call failing, no task is ever handed out again |
| Framing.FirstSeparator | daemon/src/llama_client.cpp:163-165 | the position of the first blank line, if there is one |
| Framing.SplitLosesNothing | daemon/src/llama_client.cpp:161-167 | the frames, each followed by a blank line, and the leftover are the bytes received; the leftover has no blank line |
| Framing.SplitIsExact | daemon/src/llama_client.cpp:161-167 | a buffer splits into given frames and leftover iff it is their encoding |
| Framing.SplitResumes | daemon/src/llama_client.cpp:161-167 | splitting can be interrupted after any byte |
| StreamReader.TrimmedIsExact | daemon/src/llama_client.cpp:170 | trimming removes white space at both ends and nothing else |
| StreamReader.TrimmedDecomposes | daemon/src/llama_client.cpp:170 | every payload is white space, its trimmed core, and white space |
| StreamReader.PaddingIsIgnored | daemon/src/llama_client.cpp:168-182 | an event means what its trimmed payload means, and frames without the event prefix mean nothing |
| StreamReader.ChunksDoNotMatter | daemon/src/llama_client.cpp:160-205 | any sequence of reads leaves the same calls, table, latest id and buffer as one read of all bytes |
| StreamReader.RegisteredUntilClosed | daemon/src/llama_client.cpp:171-178 | a callback stays in the table exactly until the first `[DONE]` whose latest event carries its id |
| StreamReader.DeliveryIsExact | daemon/src/llama_client.cpp:171-203 | under any interleaving it is called, in order, for the non-empty tokens of its events up to then, and for nothing afterwards |
| StreamReader.NoDeliveryUnregistered | daemon/src/llama_client.cpp:195-203 | an id that is not registered gets no call |
| StreamReader.FullDeliveryCondition | daemon/src/llama_client.cpp:171-203 | a request receives all its tokens iff none follows a `[DONE]` that ends it |
| StreamReader.InterleavingLosesTokens | daemon/src/llama_client.cpp:171-177 | the `[DONE]` of one request ends another that spoke last, which then loses its tokens |
| StreamReader.SequentialStreamsAreComplete | daemon/src/llama_client.cpp:171-203 | streams one after the other each get their full token list, and those that had an event leave the table |
| StreamReader.RequestLeavesIffItSpoke | daemon/src/llama_client.cpp:171-177 | a request leaves the table iff its stream had an event before its `[DONE]` |
| StreamReader.DeliveryFromBytes | daemon/src/llama_client.cpp:160-205 | from bytes in any chunks to callback calls, end to end |
| StreamReader.DeliveryAmongRequests | daemon/src/llama_client.cpp:112-205 | over runs that mix reads in any chunks with registrations of other requests, a request gets exactly the calls its frames ask for up to its first `[DONE]` |
| StreamReader.EventOnTheWire | daemon/src/llama_client.cpp:160-203 | the bytes of `data: `, padded JSON and a blank line, however cut, make one call: the callback of the id, with the content of the first choice or else its text |
| StreamReader.EventWithoutCall | daemon/src/llama_client.cpp:182-203 | an event without choices, or whose id has no callback, makes no call and still becomes the latest one |
| StreamReader.DoneOnTheWire | daemon/src/llama_client.cpp:168-178 | the bytes of `data: [DONE]`, padded or not, remove the request of the latest event and nothing else |
| StreamReader.ShortestDone | daemon/src/llama_client.cpp:168-178 | the same for the fourteen bytes of its shortest form |
| StreamReader.OthersOnTheWire | daemon/src/llama_client.cpp:168-182 | a frame without that prefix, and one with broken JSON or JSON that is no object, changes nothing |
| StreamReader.LlamaClient.Register | daemon/src/llama_client.cpp:124-127 | registration adds one callback and changes nothing else |
| StreamReader.LlamaClient.OnReadyRead | daemon/src/llama_client.cpp:160-205 | one read does what splitting and dispatching the whole buffer does; the loop ends |
| StreamReader.LlamaClient.HandleEvent | daemon/src/llama_client.cpp:168-203 | one frame does what its message means, with the token looked up as the code does, and leaves the buffer alone |
| CsvFormat.EscapeCsvField | daemon/src/exporters/export_csv.cpp:12-22 | the escaped field, alone on a line, reads back as the field, without its quotes if they are deleted |
| CsvFormat.QuoteFreeText | daemon/src/exporters/export_csv.cpp:12-22 | a field without quotes is written as it is, between quotes iff it has the delimiter or a line break |
| CsvFormat.QuotedText | daemon/src/exporters/export_csv.cpp:13-20 | a field with quotes is written between quotes, each inner quote replaced by nothing, or by two |
| CsvFormat.ReadCell | daemon/src/exporters/export_csv.cpp:12-22 | a reader gets the value of a printed cell back, whether or not it was enclosed |
| CsvFormat.DocumentRoundTrip | daemon/src/exporters/export_csv.cpp:12-26 | an RFC 4180 reader run on a printed document returns exactly its records, without their quotes if they were deleted |
| CsvFormat.AsWrittenIsFaithfulIffQuoteFree | daemon/src/exporters/export_csv.cpp:13-16 | as written, a document reads back unchanged iff no text field has a quote |
| CsvExport.NotesReadBack | daemon/src/exporters/export_csv.cpp:49-110 | with doubled quotes, a reader of the bytes of all files finds every field of every note, in order, under the name of its column; the duration denotes the number it was |
| CsvExport.NotesReadBackAsWritten | daemon/src/exporters/export_csv.cpp:49-110 | as written, it does so iff no text field of any note has a quote |
| CsvExport.NoteHeader | daemon/src/exporters/export_csv.cpp:59-65 | every file of notes starts with timestamp, window_title, app_name, summary, enriched_summary, duration_ms |
| CsvExport.PromptsReadBack | daemon/src/exporters/export_csv.cpp:112-189 | with doubled quotes, the bytes of a prompt export read back as three records per note, in note order, every field under the name of its column |
| CsvExport.PromptsReadBackAsWritten | daemon/src/exporters/export_csv.cpp:112-189 | as written, they do so iff no text that is asked or answered has a quote |
| CsvExport.PromptHeader | daemon/src/exporters/export_csv.cpp:123-128 | every file of prompts starts with question, answer, timestamp, context, confidence |
| CsvParts.FilesAreDocuments | daemon/src/exporters/export_csv.cpp:24-46 | every file written is the byte order mark and the document of the header and its rows, and nothing else |
| CsvParts.FilesStartWithHeader | daemon/src/exporters/export_csv.cpp:24-46 | every file starts with the mark and the header line, for every format |
| CsvParts.MarkBytes | daemon/src/exporters/export_csv.cpp:55 | the mark is the three bytes EF BB BF |
| CsvParts.OnlyFilesAreSplit | daemon/src/exporters/export_csv.cpp:98 | an output that is no file is never split |
| Utf8.DecodesBack | daemon/src/exporters/export_csv.cpp:58 | every text is what its UTF-8 form decodes to |
| CsvParts.RowsConserved | daemon/src/exporters/export_csv.cpp:80-110 | the files hold all rows in order, or a prefix that ends at the switch whose open failed |
| CsvParts.SplitExportReadsBack | daemon/src/exporters/export_csv.cpp:24-110 | from rows to bytes and back: every file has the header as first record, and the records behind the headers are the rows however they were split |
| CsvParts.PartSizesOverExport | daemon/src/exporters/export_csv.cpp:97-107 | every closed part was taken past the limit by its last row and by no earlier one |
| CsvParts.FilesAreSmall | daemon/src/exporters/export_csv.cpp:97-107 | no file, as text in UTF-8, is larger than 10 MiB plus its header and last row |
| CsvParts.FileCountBounded | daemon/src/exporters/export_csv.cpp:97-107 | each closed file takes more than 10 MiB less mark and header from the rows, which bounds their number |
| CsvExport.PartNamesDistinct | daemon/src/exporters/export_csv.cpp:31-39 | different parts have different file names, so truncation loses nothing |
| CsvExport.PartNameIsNew | daemon/src/exporters/export_csv.cpp:31-39 | no part has the name of the first file |
| CsvExport.PartNameExamples | daemon/src/exporters/export_csv.cpp:31-37 | the names of parts, for a missing and a given suffix |
| CsvExport.NoFileOverwritten | daemon/src/exporters/export_csv.cpp:38-39 | after all files were opened with truncation and written, every one of them is in the directory, whole |
| CsvExport.NoteLine | daemon/src/exporters/export_csv.cpp:81-89 | the line of a note is its six cells, five escaped, joined by the delimiter |
| CsvExport.DecimalDenotes | daemon/src/exporters/export_csv.cpp:87 | a printed duration denotes its number, without leading zeros |
| CsvExport.PromptLine | daemon/src/exporters/export_csv.cpp:144-154 | the line of a prompt is its five escaped cells joined by the delimiter |
| CsvExport.OpenNextFile | daemon/src/exporters/export_csv.cpp:28-46 | a file that opens holds the mark and the header line; otherwise there is none |
| CsvExport.ExportCsv | daemon/src/exporters/export_csv.cpp:49-110 | the loop writes mark, header and one line per note and switches files as the splitter says; with doubled quotes the bytes written read back as the notes |
| CsvExport.PromptWriter.WriteRow | daemon/src/exporters/export_csv.cpp:148-173 | one call writes one line, switches files when needed, and says whether to go on |
| CsvExport.ExportStructuredPrompts | daemon/src/exporters/export_csv.cpp:112-189 | the loop writes mark, header and three lines per note and stops at the first failed open; with doubled quotes the bytes written read back as the records |
| FrameDiff.CalculateDifference | daemon/src/capture/frame_diff.cpp:6-29 | the nested loops compute the normalised sum, 1 for different sizes, not-a-number for no pixels |
| FrameDiff.IsSignificantChange | daemon/src/capture/frame_diff.cpp:31-34 | true iff there is a score and it exceeds the threshold |
| FrameDiff.ScoreExists | daemon/src/capture/frame_diff.cpp:7-28 | the score is not a number exactly for two frames of one size without pixels |
| FrameDiff.DifferenceIsBounded | daemon/src/capture/frame_diff.cpp:13-28 | the score lies in [0, 1] |
| FrameDiff.DifferenceIsSymmetric | daemon/src/capture/frame_diff.cpp:6-29 | the score does not depend on the order of the frames |
| FrameDiff.DifferenceIsZeroIffSameColours | daemon/src/capture/frame_diff.cpp:15-28 | the score is zero iff sizes and all three colour channels agree |
| FrameDiff.DifferenceIsOneIffOpposite | daemon/src/capture/frame_diff.cpp:7-28 | the score is one iff the sizes differ or every channel of every pixel differs by 255 |
| FrameDiff.DifferenceObeysTriangle | daemon/src/capture/frame_diff.cpp:6-29 | the triangle inequality, size mismatches included |
| FrameDiff.ChangeShowsInSteps | daemon/src/capture/frame_diff.cpp:31-34 | a significant change shows in one of two steps through an intermediate frame |
| FrameDiff.OnePixelShare | daemon/src/capture/frame_diff.cpp:20-28 | a frame with one pixel changed by dr, dg and db scores (dr + dg + db) / (765 * pixels) |
| FrameDiff.PixelsAddUp | daemon/src/capture/frame_diff.cpp:15-26 | each pixel adds to the score on its own, whatever the others are |
| FrameDiff.SignificanceOfExtremes | daemon/src/capture/frame_diff.cpp:31-34 | equal frames are significant iff the threshold is negative, opposite ones iff it is below one, and a lower threshold hides nothing |

## Left out

- NVML, Qt timers and signals, sockets, processes and reconnection: only their results and the emitted signals appear.
- JSON syntax, UUIDs and date formatting: uninterpreted, or already text. Texts are sequences of Unicode scalar values, so what `toUtf8` does to a lone surrogate is not modelled.
- `getStats` of queue and guard, `requestModelRestart`, `stopGeneration`, server spawning: copies of fields or pure effects.
- Floating-point rounding of thresholds, utilisation and frame scores; real numbers are used instead.
- The guard stores utilisation and free memory in two atomic writes; here they are one step. Unsynchronised reads of its plain fields are not modelled.
- A task priority of `kCount` or beyond would index past the three deques; priorities here are the three named ones.
- Exceptions from allocation, and a callback that registers a new request from inside `onReadyRead`.
- Fairness: nothing says that a notified thread ever gets the lock; the proofs say what happens when it does.
- GpuGuardModel.FlappingCostsVariation: memory pressure also switches the throttle, so the bound is stated for runs with ample memory.
- CsvParts.FilesAreSmall: the position after a header is any value that counts the mark and part of the header, because it depends on how much the text stream has passed on.
- The return of the exporters when store or device is missing, and the periodic flush, which does not change what is written.
- The codec that a text stream uses after `setDevice`, and delimiters that occur in a header or a printed number.
- Overflow of the 32-bit pixel count for frames of more than 2^31 - 1 pixels.
- HTTP server, wiring in `main.cpp`, SQLite store, OCR, portal, user interface, and placeholder files.
