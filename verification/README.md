# Verification model of go-carbon

go-carbon receives metric points, keeps them in memory, writes them to disk through a set of
persister workers, and answers carbonlink and HTTP queries while points are moving. This project
models the parts of it where points could get lost, doubled, reordered or misread, and proves what
those parts promise. It is checked with `dafny verify dfyconfig.toml`.

## The modules

- **The pipeline.** `PipelineModel` is a state machine of all goroutines between the receivers and
  the store function: the cache worker, the tracker of unconfirmed batches, the throttle, the
  shuffler and the persister workers, joined by bounded channels. A step is one branch of one select
  loop, so a run is any interleaving. Batches are identities, as pointers are in the code; their
  points live in a heap, because `Cache.Add` grows a batch that the map and the queue both refer to.
  `PipelineInvariant` is the invariant, `PipelineCache` and `PipelinePersister` prove that the steps
  keep it, `PipelineTheorems` and `PipelineProgress` draw the conclusions, and `PipelineExample` has
  concrete runs. `PipelineSteps` says what single steps do in the terms of the code, and what bounds
  the channels and the throttle. `PipelineRefinement` says which Add or Pop of the `Cache` object a
  step is, if any; `PipelineWriteOut` carries the promises of the write-out queue over to the loop
  heads of a whole run (`IdleRuns` has runs with idle steps). `TrackerRefinement` drives the
  `NotConfirmed` object along a run.
- **The objects underneath.** `CacheStore` is the `Cache` object: a map of mutable batches and a
  queue of the same objects, with uint32 counters. `WriteOut` has the definitions its methods are
  proved against, and the properties of runs of Adds and Pops; `CacheRuns` drives the object along a
  run of messages and Pops. `SharedData` has the backing array of one batch, which Add writes to while
  query replies share it. `Tracker` is the `notConfirmed` object over real arrays of Go slices
  (`GoSlices`).
- **carbonserver.** `Braces` (brace expansion), `GlobMatch` (filepath.Match) and `GlobRules` (what its
  rules mean for whole names), `Trigrams` (the index) and `TrigramRules` (the trigrams of a glob, taken
  apart at its first wildcard or class), `IndexGap` (a query whose file the index misses),
  `CachedData` (the time grid) and `CachedValues` (points that are not on it).
- **Bytes and text.** `Pickle` (replies and a pickle machine), `Carbonlink` (requests), `Framing`
  (length prefixes), `Udp` (line reassembly), `Glue` and `PlainText` (the text form), with `Bytes`,
  `TextLines` and `GoStrings` below them.
- **Throttle.** The divisor search of the throttle.
- `Points`, `Sequences` and `Arithmetic` are shared.

## The steps of the pipeline

| step | source |
|---|---|
| `AHead`, `AReceive`, `ATakeQuery`, `AForwardQuery`, `AHandOff` | the loop head and the branches of `Cache.worker`, cache/cache.go:243-284 |
| `AEmit`, `AConfirm`, `AAnswer` | the branches of `notConfirmed.worker`, cache/confirm.go:61-88 |
| `AReceiveOut` | whoever reads the output channel: the throttle, the shuffler or the only worker |
| `ATick`, `AThrottleSend`, `AThrottleExit`, `AReceiveThrottled` | the throttle goroutine, persister/whisper.go:235-264 |
| `AReaderExit`, `AShuffle` | leaving the loop of the shuffler or the only worker, routing, persister/whisper.go:151-187 |
| `AWorkerReceive`, `AWorkerExit`, `AStore`, `ASendConfirm` | a worker, and the one confirm in `store`, persister/whisper.go:75-80, 144-166 |
| `AStart`, `AStop` | persister/whisper.go:272-311, and closing the exit channel |
| `ASend`, `AAsk` | a receiver sends a message, a client asks a query |
| `ASendDirect`, `AEmitDirect`, `AThrottleSendDirect` | the send and the receive on an unbuffered channel |

## Where the code falls short

The proofs show these exactly; each has a concrete input or an if-and-only-if below.

- A query whose metric is the one the cache worker holds gets the held batch, and a newer cache
  entry of the same metric is skipped (cache/cache.go:266-270). `SkippedOnlyBehindHeld` says when an
  entry is skipped. `ReplyCovers` says what becomes of it: when the tracker answers, it is missing if
  and only if it has not been handed to the tracker by then; otherwise it is in the in-flight part or
  already confirmed. Nothing else is ever missing. `ReplyCanMissAPoint` is a run in which a point is
  missing, `SkippedEntryCanArrive` one in which the skipped entry arrives in time.
- `packReply` counts every batch in flight as one point (cache/carbonlink.go:202). When a single
  batch is all there is, and it does not hold exactly one point, the reply is a pickle program that
  fails. `PackReply` gives the exact condition, `MalformedReply` an input.
- `ParseText` does not give back metrics that are empty, contain a space or start with a tab, a
  carriage return or a newline, nor NaN values. `TextRoundTrip` is the exact condition.
- extractTrigrams does not know that a backslash quotes the character after it. The index search
  finds every file that a glob matches, whatever the files are, if and only if the glob is `Safe`: no
  name that it matches can avoid one of its trigrams, which `CanAvoid` decides by reading the glob
  (`InEveryMatch`, `HitsAreCandidates`, `UnsafeMisses`). Globs without a backslash are safe, and so
  are the trigrams without a backslash of a glob without a '[' (`WhenSafe`). The query `ab\c?` goes to
  the index, which misses the file `/abcd.wsp` (`SearchMissesFile`).
- `Pop` takes a zero counter for an empty cache. It returns nil although points are cached exactly
  when the queue is empty and their number is a positive multiple of 2^32 (`NilLeavesPoints`);
  `NilOfFullEntry` is such a cache. Below 2^32 points, nil means an empty cache (`NilMeansEmpty`).
- A UDP peer loses an unfinished line exactly when the storage is asked for it after its deadline,
  five seconds after it was kept. `ReceiveWorker` says what remains of every peer's stream, and that
  it is the whole stream if and only if no tail came late; `LateTailIsLost` is the smallest loss.

## Assumptions

- Every message has at least one point, and the sender does not keep its object.
- Float values are opaque 64-bit patterns; how they are printed and parsed is a parameter of
  `PlainText` with a stated contract. crc32 is an opaque function of the metric name.
- The trigram library's `QueryTrigrams` returns every document that contains all given trigrams.
- The clock never goes back. The tick of the throttle may come at any time.
- Strings are sequences of characters of one byte each.

## Model

| member | source | states |
|---|---|---|
| PipelineTheorems.StepKeeps | cache/cache.go:243-284 | every enabled step of every goroutine keeps the invariant: flow of each metric, routing, queue aliasing, query coverage, no empty tracker list |
| PipelineTheorems.RunKeeps | cache/confirm.go:61-88 | the invariant holds in every reachable state, for any interleaving, any worker count, any channel capacities and any write strategy |
| PipelineTheorems.Conservation | cache/cache.go:138-155 | for each metric, stored batches, those on the way and the cache entry hold exactly the accepted points in arrival order, in distinct objects, and no other worker has any |
| PipelineTheorems.ConfirmationNamesHead | cache/confirm.go:23-50 | every confirmation names the head batch of its metric's list, which is there and not empty, and removes exactly that one |
| PipelineTheorems.StopLosesNothing | persister/whisper.go:144-188 | once Stop has completed, solo or sharded, throttled or not, what was taken from the input channel was stored exactly once and in order per metric, and the rest is upstream in order |
| PipelineTheorems.ReplyCovers | cache/confirm.go:52-59 | an answered query holds every point accepted before the cache worker took it and not confirmed since, except a skipped entry, and nothing but accepted points; a skipped entry is missing if and only if it has not been handed to the tracker by the time of the answer |
| PipelineTheorems.CoveredReply | cache/confirm.go:52-59 | what the cache worker has put into a query, with the list the tracker adds, is exactly the unconfirmed part of the accepted points, with the place of a skipped entry |
| PipelineTheorems.SkippedIsPlaced | cache/cache.go:263-272 | a skipped entry is the batch behind the held one in the metric's chain: at the answer it is confirmed, or in the in-flight part, or missing, each with its exact condition |
| PipelineTheorems.SkippedOnlyBehindHeld | cache/cache.go:263-272 | when a query is taken, points are left out if and only if the held batch has the metric and the cache has a newer entry of it |
| PipelineTheorems.QueriesInOrder | cache/cache.go:263-272 | queries are answered in the order they were asked, and asked is answered plus waiting |
| PipelineExample.ReplyCanMissAPoint | cache/cache.go:266-270 | a run of ten steps whose reply lacks a point accepted before the query |
| PipelineExample.SkippedEntryCanArrive | cache/cache.go:266-274 | a run of fifteen steps in which an entry is skipped, but handed to the tracker before the answer, and nothing is missing |
| PipelineProgress.StepLowers | cache/cache.go:243-284 | every internal step lowers a natural-number measure |
| PipelineProgress.WorkIsBounded | persister/whisper.go:144-188 | without input from outside, the number of further steps is at most the measure |
| PipelineProgress.RestUpstream | cache/confirm.go:75-86 | when no internal step is possible, the input, the queries and the confirmations are all consumed: the cache worker and the tracker cannot block each other |
| PipelineProgress.RestIsDone | persister/whisper.go:144-188 | at rest with a running persister, every accepted point is stored and confirmed in order, nothing is unconfirmed, every query is answered |
| PipelineProgress.RestIsStopped | persister/whisper.go:151-187 | at rest after a requested Stop, the stop has completed |
| PipelinePersister.ShuffleKeeps | persister/whisper.go:168-183 | routing a batch to the worker of its metric keeps the order of each metric |
| PipelineSteps.ShuffleByChecksum | persister/whisper.go:180-182 | with several workers the batch goes to the end of the channel of worker crc32(metric) modulo the number of workers, and no other worker changes |
| PipelineSteps.RoutedByChecksum | persister/whisper.go:168-187 | in every reachable state, whatever a worker has in its channel or its hands has that worker as the checksum of its metric |
| PipelineSteps.StartStarts | persister/whisper.go:272-311 | one worker reads the output itself, several are fed by a shuffler, and the throttle comes before either |
| PipelineSteps.WhenStartIsOpen | persister/whisper.go:272-311 | a persister may be started exactly when every goroutine of the one before has returned |
| PipelineSteps.StopStays | persister/whisper.go:145-188 | after a requested stop, every later state up to the next start has the exit flag set, whatever the goroutines do |
| PipelineSteps.SinceTick | persister/whisper.go:243-262 | at any time since a tick the throttle has passed on what its counter says, at most `chunk` batches, and it goes back to waiting for the tick only after `chunk` of them |
| PipelineSteps.TickPassesChunk | persister/whisper.go:243-262 | between two ticks exactly `chunk` batches pass |
| PipelinePersister.StoreKeeps | persister/whisper.go:156-160 | storing a batch keeps the order of each metric |
| PipelinePersister.SendConfirmKeeps | persister/whisper.go:78-80 | the one confirm per stored batch keeps confirmations in the order of the tracker's list |
| PipelinePersister.ReaderExitKeeps | persister/whisper.go:171-187 | leaving the loop loses no batch: with a throttle only after its channel is closed and empty |
| PipelinePersister.StartKeeps | persister/whisper.go:272-311 | a restart with another worker count or mode keeps every metric in order |
| PipelineCache.ReceiveKeeps | cache/cache.go:275-280 | adding or dropping a message keeps the invariant, also when the entry is queued for writing |
| PipelineCache.CacheHeadKeeps | cache/cache.go:246-260 | a Pop at the loop head moves the entry to the worker's hands and loses nothing |
| PipelineSteps.HeadPops | cache/cache.go:241-257 | the loop head pops exactly when no batch is held, at most a tenth of the input channel is filled and there is a batch: the last of the queue, or of a new queue when that is empty |
| PipelineSteps.WorkerLoop | cache/cache.go:243-284 | the cache worker goes from the head to the select and from each of its branches back to the head, and nobody else moves it |
| PipelineSteps.WhenSendsBlock | cache/cache.go:66-68 | each send blocks exactly when its channel is full: 16 queries, 2048 confirmations (whisper.go:213), 32 batches of a worker (whisper.go:295), and the configured sizes |
| PipelineSteps.WhenReceivesProceed | cache/cache.go:259-284 | each receive goes on exactly when its channel has something and its goroutine is at that select |
| PipelineSteps.CapacityHolds | cache/cache.go:66-68 | in every reachable state no channel holds more than its capacity |
| PipelineCache.ConfirmKeeps | cache/confirm.go:23-50 | a confirmation keeps the invariant |
| PipelineRefinement.ReceiveIsAdd | cache/cache.go:275-277 | the pipeline's receive step is the Add that `Cache.Add` is proved against |
| PipelineRefinement.HeadIsPop | cache/cache.go:252-254 | the pipeline's loop head is the Pop that `Cache.Pop` is proved against, and the worker holds the object that was stored under its metric |
| PipelineRefinement.StepRefines | cache/cache.go:243-284 | every step of every goroutine is the Add or Pop that `OpOf` reads off it, under any write strategy, or leaves the cache alone |
| PipelineWriteOut.RunRefines | cache/cache.go:243-284 | along a run, from the empty cache on, the cache of each state becomes that of the next by exactly the effect of the step between them |
| PipelineWriteOut.CachedIsTaken | cache/cache.go:108-128 | a cached batch is popped, as the same object, within as many popping loop heads as there are batches in the queue and entries at the next rebuild, whatever the goroutines do in between |
| PipelineWriteOut.QueuedIsTaken | cache/cache.go:97-105 | the batch at position x of the queue is popped within length - x popping loop heads |
| PipelineWriteOut.TakenAscend | cache/cache.go:23-25 | under TimestampOrder the batches that the worker takes within one queue cycle have non-decreasing first timestamps |
| PipelineWriteOut.LongestIsTaken | cache/cache.go:20-21 | under MaximumLength the batch taken at a rebuild is at least as long as every cached one |
| PipelineWriteOut.TakenDescend | cache/cache.go:20-21 | within one queue cycle the lengths that the taken batches had at the rebuild do not increase |
| PipelineWriteOut.CacheStaysBelow | cache/cache.go:275-280 | when every accepted message met a counter below maxSize, the cache never holds maxSize points plus the longest message |
| IdleRuns.BusyIsRun | cache/cache.go:243-284 | a run with idle steps is, without them, a run of Adds and Pops |
| IdleRuns.CachedIsReturned | cache/cache.go:108-128 | the bound on Pops for a cached metric, over a stretch with idle steps |
| IdleRuns.ReturnsAscend | cache/cache.go:23-25 | timestamp order over a stretch with idle steps |
| IdleRuns.ReturnsDescend | cache/cache.go:20-21 | the order of lengths over a stretch with idle steps |
| TrackerRefinement.HandOffIsAdd | cache/confirm.go:76-77 | when the object's lists are the pipeline's, they still are after the worker hands a batch over and `Add` runs |
| TrackerRefinement.ConfirmIsConfirm | cache/confirm.go:80-81 | the same for a received confirmation and `Confirm` |
| TrackerRefinement.AnswerIsHandleQuery | cache/confirm.go:82-83 | the list that `HandleQuery` puts into the reply shows the batches of the pipeline's reply, and is absent exactly when there are none |
| TrackerRefinement.Worker | cache/confirm.go:61-88 | along every run the object's lists are the pipeline's, and every slice ever handed out, though shared and not copied, still holds exactly the batches of its reply |
| PipelineRefinement.EveryStrategyIsCovered | cache/cache.go:181-187 | every queue that a write strategy may build is one that the pipeline may take, so its theorems hold for all strategies |
| CacheStore.Cache.Add | cache/cache.go:147-155 | the metric's entry grows by the message in the same object, or becomes the message; the rest, and the queue, stay; the counters follow modulo 2^32 |
| CacheStore.Cache.Pop | cache/cache.go:138-144 | returns nil exactly when the queue is empty and the counter is zero; otherwise the very object stored under its metric, last in the queue or in a rebuilt one, and removes it from both; `FirstOfRebuild` says which one that is after a rebuild |
| CacheStore.FirstOfRebuild | cache/cache.go:16-25 | the batch that a Pop or Get takes from a rebuilt queue is under MaximumLength at least as long as every entry, and under TimestampOrder none begins earlier |
| CacheStore.Cache.Get | cache/cache.go:108-128 | the batch comes from the current queue, or from a rebuild when that is empty |
| CacheStore.Cache.UpdateQueue | cache/cache.go:167-188 | the new queue has every entry exactly once, as the map's objects, in the order of the write strategy |
| CacheStore.Cache.Sorted | cache/cache.go:16-25 | sorting by length or by first timestamp is in bounds and gives the strategy's order |
| CacheStore.Cache.Remove | cache/cache.go:131-135 | one entry goes, and both counters go down modulo 2^32 |
| CacheStore.Cache.CacheData | cache/cache.go:266-270 | a query gets the held batch itself, or a copy of the entry, or nothing |
| CacheStore.Cache.Receive | cache/cache.go:275-280 | when there is no limit or size < maxSize the message is added; otherwise nothing changes but the overflow counter |
| CacheRuns.Work | cache/cache.go:243-284 | over any sequence of messages and Pops each message is added exactly while the number of points modulo 2^32 is below the limit, each Pop takes a batch or finds queue and counter empty, and nothing else happens |
| CacheRuns.WorkStaysBelow | cache/cache.go:275-280 | so the limit that the object enforces keeps every state below maxSize plus the longest message |
| CacheStore.CountersAfterAdd | cache/cache.go:147-155 | size and metricCount keep being the number of points and of entries modulo 2^32 |
| CacheStore.CountersAfterRemove | cache/cache.go:131-135 | subtracting by adding the two's complement keeps both counters right under wrap-around |
| CacheStore.SortByKey | cache/cache.go:181-186 | the values sorted by their keys, each exactly once |
| CacheStore.NilLeavesPoints | cache/cache.go:138-144 | an empty queue and a zero counter with points in the cache happen if and only if the queue is empty and the number of points is a positive multiple of 2^32 |
| CacheStore.NilOfFullEntry | cache/cache.go:138-144 | there is such a cache: one entry of 2^32 points |
| CacheStore.NilMeansEmpty | cache/cache.go:138-144 | with fewer than 2^32 points, an empty queue and a zero counter mean an empty cache, and the other way round |
| WriteOut.EveryEntryIsPopped | cache/cache.go:108-128 | a cached metric is returned within the queue's length plus the entries at the next rebuild, whatever Adds are interleaved |
| WriteOut.QueuedIsPopped | cache/cache.go:97-105 | an entry at position i of the queue is returned by the (length - i)-th Pop |
| WriteOut.TimestampsAscend | cache/cache.go:23-25 | under TimestampOrder the batches popped in one queue cycle have non-decreasing first timestamps when popped, though they keep growing |
| WriteOut.LongestFirst | cache/cache.go:20-21 | under MaximumLength a Pop that starts a cycle returns an entry at least as long as every other |
| WriteOut.LengthsDescend | cache/cache.go:20-21 | the lengths at the rebuild of the entries popped in one cycle do not increase |
| WriteOut.EarliestFirst | cache/cache.go:23-25 | under TimestampOrder it returns one that begins no later than any other |
| WriteOut.QueueIsSorted | cache/cache.go:181-188 | in every state of a run the queue is still sorted by first timestamp |
| WriteOut.SizeStaysBelow | cache/cache.go:275-280 | with a limit, a run never holds maxSize points plus the longest accepted message, so the counter does not wrap |
| WriteOut.TotalGrows | cache/cache.go:147-155 | the number of cached points grows by exactly what an entry grew |
| SharedData.SharedBatch.Append | cache/cache.go:149-149 | append in place when there is room and into a new array otherwise: the entry grows, and every copy handed out before still shows the same points |
| SharedData.SharedBatch.Copy | points/points.go:51-56 | a copy shares the array and shows the entry's points |
| Tracker.NotConfirmed.Add | cache/confirm.go:14-21 | the batch joins the end of its metric's list, in spare capacity or a new array; no other list changes |
| Tracker.NotConfirmed.Confirm | cache/confirm.go:23-50 | the first occurrence of the batch leaves its list, by re-slicing or an in-place shift; size goes down exactly then; no index is out of bounds |
| Tracker.NotConfirmed.HandleQuery | cache/confirm.go:52-59 | the reply is the list itself, sharing its array, and is empty exactly when nothing is unconfirmed |
| Tracker.NotConfirmed.ReadersKeepLiveBatches | cache/confirm.go:14-56 | a slice handed to a reader shows, at any later time, every batch that is still unconfirmed |
| Tracker.ReaderKept | cache/confirm.go:43-49 | a reader's window keeps its live batches when the list moves, shrinks or shifts |
| Tracker.AppendInPlace | cache/confirm.go:19-19 | an append into spare capacity does not disturb readers of the same array |
| Tracker.ConfirmHead | cache/confirm.go:37-41 | dropping the head by re-slicing keeps every reader's live batches |
| Tracker.ConfirmMiddle | cache/confirm.go:43-49 | the in-place shift keeps every reader's live batches |
| Sequences.RemoveFirstAt | cache/confirm.go:43-49 | removing the first occurrence is dropping one index |
| Throttle.Divide | persister/whisper.go:215-229 | for every rate, chunk * delimeter misses the rate by at most 99 points and by at most 0.1% |
| Throttle.Search | persister/whisper.go:219-226 | the loop finds the first divisor in 100..999 with the least remainder |
| Throttle.WitnessRemainder | persister/whisper.go:221-226 | floor(rate / (rate/1000 + 1)) leaves a remainder of at most rate/1000 |
| Throttle.TickerRate | persister/whisper.go:231-231 | with the ticker's period cut to whole nanoseconds the rate is within 0.1% below and one millionth above |
| CachedData.FetchCachedData | carbonserver/carbonserver.go:383-409 | for all inputs, each round of the loop does what the specification says, in int32 arithmetic; for aligned points the result is the grid |
| CachedData.GridIsComplete | carbonserver/carbonserver.go:383-409 | the result is a grid from the first to the last timestamp in range, then only the NaNs of points beyond; or nothing when no point is in range |
| CachedData.LaterInRange | carbonserver/carbonserver.go:389-399 | a later point fills the gap before it and becomes the last slot |
| CachedData.SameTimestamp | carbonserver/carbonserver.go:395-397 | a point with the last timestamp changes nothing: the first value stays |
| CachedData.BeyondRange | carbonserver/carbonserver.go:389-397 | a point beyond the range only adds NaNs after the grid |
| CachedValues.KnownAreKept | carbonserver/carbonserver.go:383-409 | for all points, aligned or not: the values that are not NaN are, in order, those of the points in range whose timestamp is not that of the point in range before |
| CachedValues.LastIs | carbonserver/carbonserver.go:395-398 | that timestamp is the one of the last point in range, or 0 when there was none |
| CachedValues.BoundsSpan | carbonserver/carbonserver.go:400-405 | for all points and a range that starts after second 0: the two bounds are the least and the greatest timestamp in range, or 0 when no point is |
| CachedValues.SlotIs | carbonserver/carbonserver.go:383-409 | for positive, sorted timestamps that are multiples of the step, each slot is the value of the first point with its time, or NaN if there is none or the time is behind the last point in range |
| CachedValues.SlotsReach | carbonserver/carbonserver.go:383-409 | the slots reach from the first timestamp in range to the last one |
| CachedValues.GapCount | carbonserver/carbonserver.go:389-394 | the number of NaNs put before a point is one less than the steps that fit between the timestamps |
| Points.Int32IsCongruent | carbonserver/carbonserver.go:388-388 | cutting a timestamp to int32 changes it by a multiple of 2^32 |
| Braces.ExpandBraces | carbonserver/carbonserver.go:190-230 | the capped rounds end and give exactly the first maxGlobs + 1 elements of the recursive expansion, none for a negative cap |
| Braces.BraceIsFirst | carbonserver/carbonserver.go:195-202 | a glob has a brace if and only if some '}' is behind some '{'; it goes from the first '{' to the first '}' after it |
| Braces.AlternativesAre | carbonserver/carbonserver.go:204-214 | a glob whose first brace holds parts joined by commas has exactly the alternatives before + part + after, in order |
| Braces.Round | carbonserver/carbonserver.go:191-225 | one round with its cap; when it reports no brace, none of its globs has one |
| Braces.AppendParts | carbonserver/carbonserver.go:206-214 | the parts of one brace are appended up to the cap |
| Braces.CapIsHarmless | carbonserver/carbonserver.go:210-219 | since a glob expands to at least one, cutting intermediate lists does not change the capped result |
| Braces.StepKeepsExpansion | carbonserver/carbonserver.go:206-214 | replacing every glob by its alternatives keeps the expansion of the list |
| Braces.RoundLowers | carbonserver/carbonserver.go:226-229 | the largest number of closing braces among the globs that match drops in every round |
| Braces.ExpandedFully | carbonserver/carbonserver.go:190-230 | in no result is there a '}' behind a '{' |
| Braces.UsesGlob | carbonserver/carbonserver.go:173-177 | the index is bypassed exactly for queries without '[', '?' and inner '*' |
| Braces.Initial | carbonserver/carbonserver.go:188-194 | the last initial glob is the query with every dot turned into a slash; before it, if and only if the query does not end in '*', comes the same with ".wsp" |
| GoStrings.SplitIsExact | carbonserver/carbonserver.go:208-208 | splitting cuts at every separator and nowhere else |
| GoStrings.SplitJoin | carbonserver/carbonserver.go:205-205 | splitting parts joined by a separator gives the parts back |
| Trigrams.ExtractTrigrams | carbonserver/carbonserver.go:855-886 | the result is exactly the trigrams whose three characters stand for themselves next to each other; all slices are in bounds, also after an unclosed '[' |
| TrigramRules.PlainTrigrams | carbonserver/carbonserver.go:855-886 | a glob without special characters has exactly the trigrams of its text |
| TrigramRules.WildcardSplits | carbonserver/carbonserver.go:855-886 | behind the first star or question mark the extraction starts anew |
| TrigramRules.ClassSplits | carbonserver/carbonserver.go:869-873 | a class up to its first ']' is skipped, and no trigram reaches across it |
| TrigramRules.UnclosedClass | carbonserver/carbonserver.go:869-873 | behind a '[' that is never closed nothing counts |
| GlobMatch.InEveryMatch | carbonserver/carbonserver.go:254-257 | for every pattern, with classes and backslashes: a text of three characters is in every name that it matches if and only if `CanAvoid`, which reads the pattern once, says that it cannot be avoided |
| GlobMatch.AvoidingName | carbonserver/carbonserver.go:254-257 | when the pattern can avoid the text, a matching name without it |
| GlobMatch.AvoidedByName | carbonserver/carbonserver.go:254-257 | when a matching name avoids the text, `CanAvoid` says so |
| GlobRules.PlainMatchesItself | carbonserver/carbonserver.go:254-257 | a pattern without special characters matches itself and nothing else |
| GlobRules.QuotedMatchesItself | carbonserver/carbonserver.go:254-257 | so does any text with every character behind a backslash |
| GlobRules.StarMatches | carbonserver/carbonserver.go:254-257 | a star matches exactly the names without a slash |
| GlobRules.QuestionMatches | carbonserver/carbonserver.go:254-257 | a question mark matches exactly one character that is not a slash |
| GlobRules.RangeMatches | carbonserver/carbonserver.go:254-257 | a class of one range matches exactly one character in it |
| GlobRules.NegatedMatches | carbonserver/carbonserver.go:254-257 | with a '^' it matches exactly one character outside |
| GlobRules.SinglesMatch | carbonserver/carbonserver.go:254-257 | a class of single characters matches exactly one of them |
| Trigrams.PathHasTrigrams | carbonserver/carbonserver.go:241-247 | a path that "/" + g matches contains every backslash-free trigram of a g without '[' or without backslash |
| Trigrams.MatchHasTrigram | carbonserver/carbonserver.go:862-877 | the same for names and globs, by following the match |
| Trigrams.ClosedByFirst | carbonserver/carbonserver.go:869-873 | without backslashes a well-formed character class ends at its first ']', where the extraction goes on |
| Trigrams.WhenSafe | carbonserver/carbonserver.go:855-886 | a glob without backslashes is safe, and in one without '[' every trigram without a backslash is |
| Trigrams.HitsAreCandidates | carbonserver/carbonserver.go:240-260 | for a safe glob the index gives every file that it matches |
| Trigrams.UnsafeMisses | carbonserver/carbonserver.go:240-260 | for any other glob there is a file that it matches and that an index of exactly that file does not give |
| Trigrams.IndexSearch | carbonserver/carbonserver.go:236-267 | a file is found if and only if some glob matches it and the index gives it for that glob's trigrams; when all globs are safe, exactly what a linear scan finds |
| IndexGap.GlobsOfQuery | carbonserver/carbonserver.go:173-194 | the query `ab\c?` goes to the index, as itself and with ".wsp" |
| IndexGap.SearchMissesFile | carbonserver/carbonserver.go:236-267 | it matches the file `/abcd.wsp`, which the index search does not find |
| Pickle.PackReply | cache/carbonlink.go:197-237 | a pickle machine reads the reply as a dict from the bytes of 'datapoints' to all points in order, unless they are miscounted as one, and then it fails |
| Pickle.ReplyMeaning | cache/carbonlink.go:208-236 | the same for the bytes: opening, points and ending |
| Pickle.RunPoints | cache/carbonlink.go:182-195 | the machine reads a run of points as their pairs: signed 32-bit timestamps, bit-exact values |
| Pickle.RunPair | cache/carbonlink.go:182-195 | one point is one pair on the stack |
| Pickle.WhenMiscounted | cache/carbonlink.go:199-206 | the count is wrong exactly when a single batch in flight, of not one point, is all there is |
| Pickle.MalformedReply | cache/carbonlink.go:228-234 | one batch of two points in flight gives a reply that no client can read |
| Pickle.OneCachedPoint | cache/carbonlink.go:182-236 | the reply with one cached point, byte by byte |
| Pickle.FlightThenCache | cache/carbonlink.go:197-236 | the reply with a point in flight and a cached one, byte by byte: the one in flight comes first |
| Bytes.LERoundTrip | cache/carbonlink.go:187-188 | low-to-high bytes give the number back |
| Bytes.BERoundTrip | cache/carbonlink.go:191-192 | high-to-low bytes give the number back |
| Bytes.LEDigit | cache/carbonlink.go:187-188 | byte i of the low-to-high form is digit i in base 256 |
| Bytes.BEDigit | cache/carbonlink.go:191-192 | the high-to-low form has the same digits the other way round |
| Carbonlink.ParseCarbonlinkRequest | cache/carbonlink.go:77-138 | the cursor-advancing parser computes the parse function |
| Carbonlink.AcceptsExactly | cache/carbonlink.go:77-138 | a message is accepted as a request if and only if it is an encoding of it, with any key order, string forms and memos, and anything behind it |
| Carbonlink.RequestRoundTrip | cache/carbonlink.go:77-138 | an encoded request is parsed back |
| Carbonlink.ParsedWasEncoded | cache/carbonlink.go:77-138 | what is accepted was encoded, with choices that can be told |
| Carbonlink.KeyBytes | cache/carbonlink.go:77-101 | the opening and the two keys, byte by byte |
| Carbonlink.MemoisedRequest | cache/carbonlink.go:77-138 | a request as pickle writes it, byte by byte with any two strings, is parsed to those strings |
| Carbonlink.LongRequest | cache/carbonlink.go:39-63 | the same with the type first and a metric whose length takes four bytes |
| Carbonlink.Cursor.GetStr | cache/carbonlink.go:39-63 | a U, T or X string is taken off the input, or nothing happens |
| Carbonlink.Cursor.MaybeMemo | cache/carbonlink.go:32-37 | a memo opcode with its argument is skipped |
| Carbonlink.Cursor.ExpectBytes | cache/carbonlink.go:65-72 | a prefix is taken off, or nothing happens |
| Carbonlink.FramedRequests | cache/carbonlink.go:239-250 | a stream of framed requests is read and parsed back in order |
| Framing.Conn.ReadFrame | helper/framing/conn.go:90-103 | the next frame, or the error and what was consumed |
| Framing.Conn.Read | helper/framing/conn.go:74-87 | fills a buffer from the current frame only, and keeps count of what is left of it |
| Framing.Conn.ReadSize | helper/framing/conn.go:105-127 | the prefix as a length, checked against the limit |
| Framing.Conn.Write | helper/framing/conn.go:130-149 | the frame is written, or nothing when it is too large |
| Framing.Conn.NewConn | helper/framing/conn.go:50-71 | a connection for prefixes of 1, 2 or 4 bytes, limited to what the prefix can express |
| Framing.StreamRoundTrip | helper/framing/conn.go:90-149 | written frames come back unchanged from ReadFrame, then the end of the stream, for every prefix length and either byte order |
| Framing.FrameIsWhole | helper/framing/conn.go:90-103 | a frame without an error is exactly as many bytes behind the prefix as the prefix says |
| Framing.TooLong | helper/framing/conn.go:105-127 | a length over the limit is an error that consumes the prefix only |
| Framing.CutStream | helper/framing/conn.go:90-127 | a stream cut anywhere inside a frame gives the frames before, then the end of the stream if the cut is before the prefix or right behind it, and otherwise an unexpected end |
| Framing.CutRead | helper/framing/conn.go:74-87 | a Read from an unfinished frame gives what there is, with an error |
| Framing.PrefixDigits | helper/framing/conn.go:130-149 | the bytes of a prefix are the digits of the length in base 256, in the order of the connection |
| Framing.ReadStaysInFrame | helper/framing/conn.go:74-87 | one Read returns the next bytes of one frame, never more |
| Framing.ReadsGiveTheBytes | helper/framing/conn.go:74-87 | with any buffer sizes, what is read is a prefix of what was written |
| Framing.EnoughReads | helper/framing/conn.go:74-87 | with non-empty buffers, as many Reads as there are bytes and frames give everything |
| Udp.Receiver.Receive | receiver/udp.go:146-196 | one datagram gives the parser the lines of the peer's stream that it finishes; only a tail past its deadline is lost; a new tail is kept for five seconds |
| Udp.Receiver.ReceiveWorker | receiver/udp.go:137-197 | for any interleaving of peers, any cutting into datagrams and any purges: every peer gets exactly the lines of what remains of its stream without the tails that were asked for late, so it gets those of its whole stream if and only if none was; times and deadlines are those that the storage logged, each deadline five seconds after its tail was kept |
| Udp.TimesGoUp | receiver/udp.go:56-73 | in such a history a tail's deadline is five seconds after a moment between its own datagram's pop and the next one's |
| Udp.RemainingIsSent | receiver/udp.go:64-73 | a peer none of whose tails came late has lost nothing, and any other peer has |
| Udp.LateTailIsLost | receiver/udp.go:64-73 | a line in two datagrams loses its first part if and only if the second one comes after the deadline |
| Udp.IncompleteStorage.Store | receiver/udp.go:56-62 | the tail is kept with a deadline exactly five seconds after the time that is read; when it fills the storage and a purge is due, every expired tail goes, otherwise none |
| Udp.IncompleteStorage.Pop | receiver/udp.go:64-73 | the tail comes back exactly when its deadline is not over |
| Udp.IncompleteStorage.Purge | receiver/udp.go:75-83 | every tail that has expired goes, and no other |
| Udp.IncompleteStorage.CheckAndClear | receiver/udp.go:85-93 | nothing happens below the size limit or before the next purge is due; otherwise every expired tail goes |
| TextLines.SplitLines | receiver/udp.go:166-195 | the inner loop gives the lines of the data, and what is left |
| TextLines.CutAnywhere | receiver/udp.go:157-164 | a stream may be cut anywhere if the unfinished line is put before the next piece |
| TextLines.LinesAreTheStream | receiver/udp.go:166-195 | the lines and the tail make up the stream |
| TextLines.LinesEnd | receiver/udp.go:166-195 | every line ends with its only newline |
| TextLines.LinesOfConcat | points/glue.go:45-52 | lines put together are cut into the same lines |
| Glue.Run | points/glue.go:26-54 | on a closed input, and right after a tick, the chunks are exactly the formatted lines in order; on exit they are whole lines from the first on; a chunk fits chunkSize or is a single line |
| Glue.GlueLine | points/glue.go:46-51 | a line goes into the buffer, which is flushed before exactly when there is no room |
| Glue.Handle | points/glue.go:28-43 | a tick and a closed input flush, an exit drops the buffer |
| Glue.Flush | points/glue.go:15-21 | the buffer becomes a chunk, unless it is empty |
| Glue.OutputRoundTrip | points/glue.go:45-52 | cutting the whole output into lines and parsing them gives every point back in order |
| PlainText.TextRoundTrip | points/points.go:60-96 | the text form of a point is parsed back if and only if the metric is not empty, has no space and no trimmed first character, and the value is not NaN |
| PlainText.ParsedIsPrintable | points/points.go:60-82 | no line parses to any other metric, or to NaN |
| PlainText.AcceptsExactly | points/points.go:60-96 | a line is accepted if and only if its trimmed text is three fields without spaces joined by single spaces, whose numbers can be read and are not NaN |
| PlainText.TrimIs | points/points.go:62-62 | trimming takes off newlines, spaces, tabs and returns at both ends, and nothing else |
| PlainText.LeadingTabIsLost | points/points.go:62-62 | a metric that starts with a tab does not come back |

## Left out

- The whisper files: what the store function does with a batch, and its failures. "Stored" means
  handed to the store function; a file that cannot be opened is confirmed without being written.
- The size limit and the write strategy inside the pipeline: there, whether a message is accepted is
  free, and a rebuilt queue may have any order. They come in as conditions on a run, in
  `PipelineWriteOut`; `CacheStore` proves that the object meets them.
- `CacheStore` keeps a batch's points as a value; the backing arrays are in `SharedData`, one batch
  at a time. That no two entries share an array rests on the sender not keeping its message.
- sort.Sort is replaced by an insertion sort with the same contract.
- GraceStop and Dump: they drop the cache worker's held batch, the tracker's pending one and Glue's
  buffer, so "a dump loses nothing" would be false.
- Data races: each tracker operation and each select branch is one step.
- The merging of several cached ranges in `fetchHandler`, the file system glob after the index, and
  the final sort of the file names.
- filepath.Match in `GlobMatch` is defined by its documented rules for one-byte characters.
- `ParsePickle`, og-rek, protobuf and HTTP: libraries and handlers that are not part of this model.
- Memo writing (`pickleWriteMemo`), which nothing calls.
- Read errors of the UDP socket, statistics, logging, configuration, schema matching, `Stoppable`.
- CachedData.GridIsComplete: says nothing about timestamps that are not positive, sorted and multiples
  of the step, because the grid that the code aims at is not defined for them; `CachedValues` says which
  values are kept then.
- Framing.Conn.Write: a failing connection is not modelled; every accepted write succeeds.
