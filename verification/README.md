# cwm-minio-tierer: a verified model

Updaters count object accesses: HTTP requests become per-hour Redis counters through a bounded
queue, a batching worker and an atomic Lua script. A tierer walks all buckets, reads those
counters, judges every object, and marks or restores it under daily budgets. This project models
both programs and the Redis keyspace between them in Dafny and proves what they promise.

Run `dafny verify dfyconfig.toml`.

## How the model is built

- **Keyspace.** `Redis` is a map from key to text (or a value of another type) with an absolute
  expiry in milliseconds, and INCRBY and EXPIREAT with the errors they raise. `Decimal` holds the
  digit-string arithmetic of the scripts, with the carry loop as it runs. `LuaNumber` is the
  double an INCRBY reply passes through on its way back.
- **Updater.** `Ingest`, `Batch`, `Merge`, `Flush`, `RedisStore` and `CounterScript` are the code
  path of a request. `Protocol` is the concurrent batcher as a state machine: every lock-protected
  region is one event, the worker's control points are explicit, and every select is a choice
  between enabled events. `ProtocolSafety` proves its invariant, `ProtocolTheorems` what follows,
  `AckTiming`, `IngestedRequests` and `AckBudget` add clocks, `Ledger` and `LedgerTheorems` put a
  fleet of such processes over one keyspace, with starts, crashes and restarts.
  `AckProgress` shows that the clocks never get stuck. `Batcher` has the shutdown loops in imperative form,
  with a record of every flush: its jobs, its Apply, the exchanges with Redis and the database before and after.
- **Tierer.** `Reads`, `Evaluator`, `Minio`, `Budget`, `Progress`, `Traversal`, `Decisions` and `Scanner`.
  Dependencies are nondeterministic: any call may fail, may take effect and still fail, and fails
  without effect once the context is cancelled (`Contexts`). A crash is a cancellation nobody hears of.
  What MinIO and Redis were asked and what they answered is logged, and `Decisions` says which
  questions and calls each object's listing and verdict call for.
- **Both.** `Contracts`, `Calendar` and `Base64Url` are keys, hours and expiries; `LowDecision`
  follows an access from its HTTP request to the verdict it prevents.
- `Text` is the byte order all sorting and cursors use; `GoTypes` has int64 wrap-around and times
  in nanoseconds; `Wrappers` has Option and Result.

## Main results

1. In every interleaving of Submit, worker and Stop each enqueued request is in exactly one place,
   is never answered twice, and is answered once `done` is closed; shutdown always completes,
   and nobody is told "stopped" unless Stop's context ended first (`ProtocolTheorems`). The clocked
   batcher never gets stuck and answers everybody within a bound (`AckProgress`, `AckTiming`). What drain
   flushes, and what it tells each job, is what that job's own Apply answered (`Batcher.Worker.Drain`,
   `Batcher.AcknowledgedMeansDone`).
2. Over any fleet of updaters that start, stop and crash: acknowledged requests are applied
   exactly once, refused and failed ones never, all others at most once; and while all written
   batches are exact, as those of ingested requests are, every unexpired counter is its initial
   value plus the applied deltas (`LedgerTheorems.ExactlyOnce`, `CountersHoldAppliedRequests`,
   `TimelyRunsAreExact`).
3. A verdict compares exactly what the window's counters held plus the accesses applied since,
   which include every acknowledged one; runs over one keyspace add up (`LowDecision`).
4. A finished traversal has handled every object that was there all the time, through any number
   of failed and resumed scans, if the listings of all its scans were sorted and complete; until
   it is finished the durable cursor only moves forward, even over unsorted listings; and a scan
   that does not finish was cancelled, let down by a call, or given settings, counters or listings
   it must refuse (`Scanner.Scanner.ScanOnce`, `Scanner.Scanner.RunScans`, `Progress.CursorStore`).
5. Mutations charged to a day stay within the limits of their kind over runs with crashes and lost
   replies (`BudgetSafety.BudgetsHoldOverRuns`, `Scanner.Scanner.RunScans`); each call is
   justified by a verdict on counters Redis held when asked (`Decisions.CallMeans`); and of every
   object handled it is on record that exactly what its verdict and its state called for was asked
   and done, a due mutation failing to happen only over a lookup, tag read or reservation that
   failed, or a day's budget that was used up (`Decisions.OneMoreHandled`, `Scanner.Scanner.HandleObject`).

## Where the code falls short of its promise

Each is stated with its exact condition.

- The counter script is all-or-nothing only for expiries EXPIREAT accepts; `valid_uint` lets
  through expiries beyond 2^63/1000 seconds, and then a key is left incremented without its
  expiry (`CounterScript.AllOrNothing`). Expiries built by ingest are always in range
  (`Ingest.IngestExpiryIsInRange`).
- validateRequest adds deltas in wrapping int64, so a wrapped sum can pass for the event count
  (`Batch.AcceptedCountIsTotal`, `Batch.WrappedRequestIsAccepted`). Requests built by ingest
  cannot wrap (`Ingest.IngestedTotal`).
- So a written batch leaves every counter right if and only if its totals are int64 values and
  its expiries in range (`Ledger.CommittedExactly`); batches of ingested requests are
  always exact (`LedgerTheorems.TimelyRunsAreExact`).
- The reservation script returns the INCRBY reply, a Lua double: reported usage equals stored
  usage exactly for numbers of at most 53 significant bits (`Budget.ReportedUsageExact`,
  `LuaNumber.FirstInexactReply`). The stored budget and the decision are exact.
- The comment on worstCaseAcknowledgementTime counts one active batch. The worker can have two
  ahead of the queue, one in Apply and one for the job in its hand. The budget covers every run
  of ingested requests exactly if the limits allow only one event or one key, or hold twice
  MaxRecords, or QueueSize * MaxWait >= OperationTimeout (`AckBudget.BudgetCoversEveryRun`). The
  default limits hold five times MaxRecords.
- ValidateRetention adds an hour in wrapping int64 (`Contracts.ValidateRetentionExact`).
- ApplyMarker reads a missing tag as the empty string, so a successful verification means equal
  tags exactly for plans without an empty value (`Minio.VerificationExact`).

## Model

| member | source | states |
|---|---|---|
| Text.LessTransitive | internal/tierer/redis.go:323-325 | the byte order of names is transitive |
| Text.LessTotal | internal/tierer/redis.go:323-325 | any two names compare one way or are equal |
| Text.SortedDistinctIsStrict | internal/tierer/redis.go:315-321 | sorted and duplicate-free is the same as strictly ascending |
| Text.Settled | internal/tierer/redis.go:316-320 | when the inner loop stops the prefix is sorted |
| Text.Swap | internal/tierer/redis.go:318 | the two elements trade places, as a permutation |
| Text.Insert | internal/tierer/redis.go:317-319 | the inner loop brings one more element into a sorted prefix and loses none |
| Text.SlicesSort | internal/tierer/redis.go:315-321 | the in-place insertion sort yields a sorted permutation |
| Text.SortedPermutationUnique | internal/tierer/redis.go:315-321 | the sorted permutation is unique: the result depends on the names alone |
| Decimal.RenderIsCanonical | internal/redisstore/store.go:131-148 | the canonical text of a number denotes that number |
| Decimal.RenderOfValue | internal/redisstore/store.go:131-148 | a canonical text is the canonical text of its value |
| Decimal.SameLengthOrder | internal/tierer/redis.go:493-496 | on digit strings of one length the byte order is the numeric order |
| Decimal.LessOrEqualIsNumeric | internal/tierer/redis.go:493-496 | less_or_equal on canonical strings is the numeric order |
| Decimal.MaxTextIsMaxInt64 | internal/redisstore/store.go:129 | the literal denotes 2^63-1 |
| Decimal.ValidUintExact | internal/redisstore/store.go:131-148 | valid_uint accepts exactly the canonical decimals of 0 to 2^63-1 |
| Decimal.CarryStep | internal/redisstore/store.go:155-169 | one turn of the carry loop keeps the digits standing for the same total |
| Decimal.AddLoopIsSum | internal/redisstore/store.go:150-169 | the loop ends with the canonical decimal of the sum |
| Decimal.AddDigits | internal/redisstore/store.go:150-169 | the carry loop over indices and carry computes what its recursive description says |
| Decimal.AddUint | internal/redisstore/store.go:150-174 | add_uint is the canonical exact sum if that is at most 2^63-1 and nil otherwise |
| LuaNumber.SpacingFitsMantissa | internal/tierer/redis.go:514-521 | the spacing of doubles around a counter is the least that leaves 53 bits |
| LuaNumber.RoundToDoubleIsNearest | internal/tierer/redis.go:514-521 | a Lua number is a nearest double of the integer reply |
| LuaNumber.IntegerReplyExact | internal/tierer/redis.go:514-521 | the reply equals the stored counter exactly when that is a multiple of the spacing |
| LuaNumber.FirstInexactReply | internal/tierer/redis.go:514-521 | 2^53+1 is reported one too low |
| CounterScript.NoRejectionMeansChecked | internal/redisstore/store.go:177-204 | no rejection in the first loop means every key passed its checks |
| CounterScript.WriteKeyExact | internal/redisstore/store.go:207-208 | the two writes of a checked key leave the exact sum and the new expiry, or nothing if that is past, and touch no other key |
| CounterScript.WriteKeyRaises | internal/redisstore/store.go:207-208 | beyond the range of EXPIREAT the key stays incremented with its old expiry |
| CounterScript.WritePhaseExact | internal/redisstore/store.go:206-210 | with distinct keys and expiries in range no write can fail and exactly the listed keys grow |
| CounterScript.WritePhaseRaises | internal/redisstore/store.go:206-210 | an expiry out of range leaves some key torn |
| CounterScript.AllOrNothing | internal/redisstore/store.go:176-210 | nothing changes or every key grows with its expiry, if and only if the batch is rejected or every expiry is one EXPIREAT accepts |
| RedisStore.NoComplaintMeansAcceptable | internal/redisstore/store.go:80-105 | the per-increment checks together are exactly acceptability |
| RedisStore.CommandArguments | internal/redisstore/store.go:80-105 | arguments are built exactly for nonempty, duplicate-free batches with positive deltas and expiries after the epoch; otherwise the first complaint is reported |
| RedisStore.EncodingUnique | internal/redisstore/store.go:84-104 | a batch is encoded in one way only |
| RedisStore.Server.LuaAddUint | internal/redisstore/store.go:150-174 | nil exactly when the sum leaves the int64 range |
| RedisStore.Server.RunCounterScript | internal/redisstore/store.go:176-210 | the two loops over the keys compute the script function on the keyspace, in place |
| RedisStore.Server.EvalSha | internal/redisstore/store.go:55-61 | one attempt: missing script, the script once with its reply, or a transport error with the script run once or not at all |
| RedisStore.Store.Load | internal/redisstore/store.go:29-42 | the cached digest changes only on success; the exchange is logged with its outcome |
| RedisStore.Store.Apply | internal/redisstore/store.go:44-72 | of the exchanges logged since: the digest is loaded first if unknown, one attempt and after a missing script one reload and one more; the answer is success exactly if the last reply was done, rejected exactly if the script rejected, ambiguous exactly if it raised or the transport failed, unavailable exactly after a second missing script, load failed exactly if a load did; the script runs at most once and every error but an ambiguous one means nothing was written |
| RedisStore.Store.Evaluate | internal/redisstore/store.go:55-71 | the attempts of Apply once a digest is known, with the answer their last reply calls for |
| Base64Url.DecodeEncode | internal/contracts/contracts.go:27-32 | decoding undoes the unpadded URL-safe encoding of section 5 of RFC 4648 |
| Base64Url.EncodeInjective | internal/contracts/contracts.go:27-32 | different names have different encodings |
| Base64Url.EncodeHasNoColon | internal/contracts/contracts.go:27-32 | an encoding contains no colon |
| Base64Url.VectorsAsPublished | internal/contracts/contracts.go:27-32 | the test vectors of section 10 of RFC 4648, without padding |
| Base64Url.NamesAsEncoded | internal/contracts/contracts.go:27-32 | two names that need the URL-safe alphabet or no padding |
| Calendar.CivilIncreases | internal/contracts/contracts.go:47-48 | later UTC hours have greater date fields |
| Calendar.CivilInjective | internal/contracts/contracts.go:47-48 | no two hours share their year, month, day and hour |
| Calendar.CivilIsGregorian | internal/contracts/contracts.go:47-48 | the date fields of an hour are those of the Gregorian calendar: counting its years, months, days and hours gives the hour back |
| Calendar.GregorianIsCivil | internal/contracts/contracts.go:47-48 | every valid Gregorian date and hour is the date of exactly the hour so counted |
| Calendar.EpochIsIn1970 | internal/contracts/contracts.go:47-48 | Unix time zero is midnight of 1 January 1970 |
| Calendar.HourOfBounds | internal/contracts/contracts.go:55 | truncation to the hour is the start of the hour a time lies in |
| Calendar.HoursOfDay | internal/tierer/redis.go:235 | the hours of a day share its date |
| Calendar.DateInjective | internal/tierer/redis.go:235 | no two days share their date |
| Calendar.DayOfBounds | internal/tierer/redis.go:235-238 | truncation to 24 hours is the start of the UTC day, and the date written is that day's |
| Contracts.JoinInjective | internal/contracts/contracts.go:46-48 | colon-free fields can be told apart after joining |
| Contracts.PaddedIsFaithful | internal/contracts/contracts.go:47-48 | a zero-padded field denotes its number and has no colon |
| Contracts.AccessKeyInjective | internal/contracts/contracts.go:34-49 | an access key determines instance, bucket, object and UTC hour |
| Contracts.AccessKeyIsNoOtherKey | internal/tierer/redis.go:236-237 | access keys never equal a cursor or budget key, of any instance |
| Contracts.AccessKeyAsDocumented | README.md:128 | an access key with all its fields, as the documentation lays it out |
| Contracts.BudgetKeyAsDocumented | README.md:130-131 | a budget key of any kind, likewise |
| Contracts.HourWindow | internal/contracts/contracts.go:51-65 | the window is the given number of consecutive hours before the evaluation hour, or before the next one; an error exactly for no hours |
| Contracts.ValidateRetentionExact | internal/contracts/contracts.go:101-110 | the check means retention exceeds both windows plus an hour exactly when that sum is an int64 |
| Contracts.WindowCountersAreLive | internal/contracts/contracts.go:87-110 | with that retention no counter of a window expires before the end of the hour after the evaluation hour |
| Batch.ValidateRequest | internal/updater/batcher.go:166-189 | accepts exactly requests within limits, with distinct keys, positive deltas, set expiries and a wrapped total equal to the events; too large is told apart |
| Batch.AcceptedCountIsTotal | internal/updater/batcher.go:173-187 | for an accepted request the event count is the true total exactly when that is an int64 |
| Batch.WrappedRequestIsAccepted | internal/updater/batcher.go:173-187 | three deltas that wrap around to two events are accepted |
| Merge.KeyTotalBounds | internal/updater/batcher.go:324-339 | a key occurs exactly if its total is positive, and no total exceeds the sum |
| Merge.MergeAllWraps | internal/updater/batcher.go:328-338 | merging one by one gives per key the sum of deltas as int64 addition wraps it and the latest expiry, for exactly the keys that occur, whatever the increments |
| Merge.MergeExact | internal/updater/batcher.go:328-338 | the merge holds the true sums if and only if no key's total leaves the int64 range |
| Merge.MergeAllIsMerge | internal/updater/batcher.go:328-338 | of increments whose sum is an int64 the merge is the per-key sum and the latest expiry |
| Merge.FlatTotals | internal/updater/batcher.go:324-339 | the deltas of a batch add up to its events |
| Merge.CountKey | internal/updater/batcher.go:315-320 | among distinct keys each one outside the batch adds one to the union |
| Merge.PendingBatch.CanAdd | internal/updater/batcher.go:311-322 | true exactly when neither the events nor the distinct keys would exceed their limit |
| Merge.PendingBatch.Add | internal/updater/batcher.go:324-339 | the whole job joins the batch and the map stays the merge of all increments |
| Merge.PendingBatch.Full | internal/updater/batcher.go:341-343 | true exactly when a limit is reached |
| Flush.InsertByKey | internal/updater/batcher.go:350 | one step of the sort: sorted, and no increment lost |
| Flush.SortByKey | internal/updater/batcher.go:350 | a key-sorted permutation |
| Flush.ListIncrements | internal/updater/batcher.go:346-350 | the batch is the key-sorted list of exactly the map's increments, in whatever order the map was iterated |
| Flush.ListingUnique | internal/updater/batcher.go:346-350 | map iteration order cannot be seen in the batch |
| Flush.FlushConservesEvents | internal/updater/batcher.go:345-353 | a flushed batch carries exactly the events of its jobs |
| Flush.FlushIsAcceptable | internal/updater/batcher.go:345-353 | a flushed batch of validated requests with expiries after the epoch passes commandArguments |
| Flush.FlushBatch | internal/updater/batcher.go:345-363 | one Apply for the whole batch, with the answer the exchanges of that Apply call for; refused for its arguments exactly if commandArguments refuses the sorted batch and never for requests like ingest's |
| ProtocolSafety.StepKeepsCensus | internal/updater/batcher.go:191-303 | every event keeps each enqueued job in one place |
| ProtocolSafety.StepKeepsDepth | internal/updater/batcher.go:114-125 | every event keeps the published depth equal to what is in transit |
| ProtocolSafety.StepKeepsFlags | internal/updater/batcher.go:136-148 | every event keeps the relation of the accepting, stop and cancel flags, the lock and the worker's phase |
| ProtocolSafety.FitsMeansWithin | internal/updater/batcher.go:311-322 | a batch that may take a job is within both limits with it |
| ProtocolSafety.StepKeepsShape | internal/updater/batcher.go:191-288 | every event keeps pending batches within limits and not full |
| ProtocolSafety.StepKeepsHistories | internal/updater/batcher.go:105-134 | every event keeps responses honest |
| ProtocolSafety.StepKeepsInv | internal/updater/batcher.go:93-303 | every event of Submit, worker and Stop keeps the invariant |
| ProtocolSafety.RunKeepsInv | internal/updater/batcher.go:93-303 | the invariant holds in every reachable interleaving |
| ProtocolSafety.StepInventsNothing | internal/updater/batcher.go:105-134 | no event brings in a job except an accepted Submit |
| ProtocolTheorems.ExactlyOnePlace | internal/updater/batcher.go:105-303 | each enqueued request is in exactly one place, and no other request is anywhere |
| ProtocolTheorems.NeverAnsweredTwice | internal/updater/batcher.go:365-369 | no result channel is sent to twice |
| ProtocolTheorems.PublishedDepth | internal/updater/batcher.go:371-376 | the published depth is queue plus received job plus Submit in progress, so never negative |
| ProtocolTheorems.DoneLeavesNobodyWaiting | internal/updater/batcher.go:192-303 | once done is closed every enqueued request has its answer, on both shutdown paths |
| ProtocolTheorems.FlushedBatchesAreBounded | internal/updater/batcher.go:191-288 | flushed batches consist of whole validated requests within both limits |
| ProtocolTheorems.ResponsesAreHonest | internal/updater/batcher.go:128-133 | Submit returns the result that was sent for its job |
| ProtocolTheorems.ResponsesHaveReasons | internal/updater/batcher.go:105-134 | a refusal, a turning away and a full queue are each said only in the event and state that is their reason, and no response ever changes |
| ProtocolTheorems.OnlyCancellationStopsRequests | internal/updater/batcher.go:260-303 | in a run without a cancellation of Stop's context nobody is told that the batcher was stopped |
| ProtocolTheorems.WorkerEventsUseUpWork | internal/updater/batcher.go:191-303 | every worker event uses up work that only a Submit can add |
| ProtocolTheorems.ShutdownNeverStuck | internal/updater/batcher.go:260-303 | after Stop the worker always has a possible event until done is closed |
| ProtocolTheorems.ShutdownCompletes | internal/updater/batcher.go:136-156 | after Stop the worker finishes within a bounded number of its own events, in any interleaving |
| Batcher.Worker.Resolve | internal/updater/batcher.go:365-369 | every job gets the one result, in order |
| Batcher.Worker.FlushPending | internal/updater/batcher.go:345-363 | exactly one Apply for the batch, every job of it told that Apply's answer, and the database led on by that Apply alone |
| Batcher.Worker.Abort | internal/updater/batcher.go:290-303 | pending and queued jobs are answered as stopped, in order, without touching the store |
| Batcher.GroupedKeepsJobs | internal/updater/batcher.go:267-280 | the batches of a row of jobs, and what is pending after them, are those jobs in order: none lost, split or moved |
| Batcher.GroupedIsGreedy | internal/updater/batcher.go:267-280 | every batch was full or could not take the next job, and what is pending is not full |
| Batcher.AbsorbedByProtocol | internal/updater/batcher.go:267-280 | the interleaving model groups jobs while draining in the same way |
| Batcher.AcknowledgedMeansDone | internal/updater/batcher.go:352-362 | a job is told success exactly if the last reply of its batch's Apply was that the script is done, and unknown exactly if nobody knows whether it ended |
| Batcher.DrainReachesEveryone | internal/updater/batcher.go:260-303 | wherever a drain is cut off, the jobs answered by batches followed by those stopped are all the jobs, each once and in order |
| Batcher.Worker.Receive | internal/updater/batcher.go:260-281 | the loop of drain: what was received so far was grouped, flushed and answered as it came; it ends with an empty queue or a cancellation |
| Batcher.Worker.Take | internal/updater/batcher.go:267-280 | the batches flushed, the answers given and the batch then pending are those the arrival of the job calls for: flush what it does not fit into, then what it fills |
| Batcher.Worker.Drain | internal/updater/batcher.go:260-288 | without a cancellation the pending and queued jobs are flushed in the batches they fall into as they come, the last one included, each told the answer of its own Apply; with one, exactly the jobs not flushed by then are told that they were stopped |
| AckTiming.StepKeepsLone | internal/updater/batcher.go:191-288 | with room for one event or one key every job goes straight into Apply |
| AckTiming.SmallOnesJoin | internal/updater/batcher.go:311-322 | a request of at most m records fills no batch that holds 2m, and any other such request joins it |
| AckTiming.RoomForHand | internal/updater/batcher.go:203-258 | where batches hold any two requests the job in the worker's hand fills no batch by itself and fits a batch of one |
| AckTiming.SendKeepsTime | internal/updater/batcher.go:117-120 | an enqueued request starts with the whole bound ahead of it |
| AckTiming.ActKeepsTime | internal/updater/batcher.go:191-288 | every event keeps every waiting job on time |
| AckTiming.WatchKeepsTime | internal/updater/batcher.go:191-288 | all waiting jobs are on time in every timed run |
| AckTiming.AcknowledgedInTime | internal/updater/batcher.go:191-303 | no enqueued request waits longer than MaxWait plus QueueSize+2 operation timeouts, or one timeout less if a batch holds one event, one key or any two requests; shutdown included |
| AckProgress.NextMove | internal/updater/batcher.go:191-303 | in every reachable timed state time may pass or some event that needs no new caller is possible |
| AckProgress.TimeGoesOn | internal/updater/batcher.go:191-303 | after finitely many such events time has passed: the batcher never stops the clock |
| AckProgress.EveryRequestIsAnswered | internal/updater/batcher.go:128-133 | from every reachable state every enqueued request can still be answered without anybody calling |
| IngestedRequests.IngestedIsSmall | internal/updater/http.go:59-78 | a request ingest builds of at most m records has at most m events and keys, is accepted, and can be written |
| IngestedRequests.TourIsIngested | internal/updater/http.go:59-78 | one access to each of some objects is a request ingest can build |
| IngestedRequests.ToursOfTwoBuckets | internal/contracts/contracts.go:34-49 | such requests to two buckets share no key |
| AckBudget.BudgetAgainstBound | internal/updater/config.go:165-181 | the configured budget reaches the bound exactly with eager limits, limits that hold any two requests, or QueueSize * MaxWait >= OperationTimeout |
| AckBudget.JobFacts | internal/updater/batcher.go:311-343 | in the run below ingest builds every request, none fits into a batch with the next, and exactly those meant to fill a batch do |
| AckBudget.BoundIsReached | internal/updater/batcher.go:191-288 | for all other limits some run of ingested requests keeps one waiting for the whole bound |
| AckBudget.BudgetCoversEveryRun | internal/updater/config.go:104-118 | with requests of at most MaxRecords records the budget covers every run if and only if it reaches the bound |
| AckBudget.ConfiguredBudget | internal/updater/config.go:165-181 | the value the configuration check computes is the budget above plus the time for reading a request |
| UpdaterConfig.WorstCaseAcknowledgementTime | internal/updater/config.go:165-181 | the value in unbounded integers, and an error exactly where it or a part of it is no Duration |
| Ledger.TimelyIsExact | internal/updater/batcher.go:345-353 | batches of requests like ingest's have int64 totals and expiries in the range of EXPIREAT |
| Ledger.CommitExact | internal/redisstore/store.go:206-210 | an exact batch the script writes to is written to its end and adds to every key its total over the jobs with the latest expiry, touching nothing else |
| Ledger.TornIsNotCommitted | internal/redisstore/store.go:206-210 | a batch with an expiry EXPIREAT refuses leaves some key off |
| Ledger.CommittedExactly | internal/redisstore/store.go:206-210 | a written batch is committed whole and exactly if and only if its totals are int64 values and its expiries in range |
| LedgerTheorems.StepTells | internal/updater/batcher.go:352-362 | only a returning flush tells anybody anything about the store |
| LedgerTheorems.WriteKeepsBalance | internal/updater/batcher.go:345-363 | a flush that writes keeps counters equal to initial values plus applied deltas, while all batches are exact |
| LedgerTheorems.MoveKeepsBookInv | internal/updater/batcher.go:105-369 | every start of a process, event, flush and passage of time keeps the books of all processes and of the counters |
| LedgerTheorems.PlayKeepsBookInv | internal/updater/batcher.go:105-369 | the books are right after every run |
| LedgerTheorems.ExactlyOnce | internal/updater/batcher.go:105-134 | success means wholly applied exactly once; refusal, full queue, stop or a definite error never touched; anything else at most once, if only in part; for every request and every process |
| LedgerTheorems.CountersHoldAppliedRequests | internal/redisstore/store.go:206-210 | while every written batch is exact, an unexpired counter is its initial value plus the deltas of exactly the applied requests, and nothing was written in part |
| LedgerTheorems.TimelyRunsAreExact | internal/updater/http.go:59-78 | in runs whose requests are like ingest's every written batch is exact |
| LedgerTheorems.ApplyIsAMove | internal/redisstore/store.go:44-72 | whatever Apply does with any batch is a flush of the ledger with the outcome its answer stands for |
| Ingest.TallyOneMore | internal/updater/http.go:61-73 | one record adds one to its own key only |
| Ingest.Aggregate | internal/updater/http.go:59-78 | one increment per object with its number of records, events equal to records; an error exactly if some key cannot be built |
| Ingest.IngestedTotal | internal/updater/http.go:61-78 | the deltas add up to the number of records, nothing wraps |
| Ingest.IngestedRequestIsAccepted | internal/updater/config.go:116-118 | a request of at most MaxRecords records passes validateRequest under any loaded configuration |
| Ingest.IngestExpiryIsInRange | internal/updater/http.go:60 | between 1970 and 9999 every retention gives an expiry EXPIREAT accepts |
| Ingest.RequestKeyTotal | internal/updater/http.go:61-73 | a request adds to the counter of an object and hour its accesses if it arrived in that hour, and nothing otherwise |
| Reads.ReadStringExact | internal/tierer/redis.go:413-435 | a key is read exactly if it is missing or a canonical int64 counter |
| Reads.ReadUnsignedStrings | internal/tierer/redis.go:413-435 | the script returns every counter's canonical text, or fails exactly if one cannot be read |
| Reads.DecodeOfScript | internal/tierer/redis.go:188-202 | what the script writes the decoder reads back as the same number |
| Reads.DecodeCounts | internal/tierer/redis.go:188-202 | decodes exactly if every element decodes |
| Reads.ReadCounts | internal/tierer/redis.go:68-101 | the counters of one window in order with missing ones zero; succeeds exactly if all can be read |
| Reads.ReadCoverage | internal/tierer/redis.go:103-138 | with coverage on and an honest reply an hour is covered exactly if its key holds the configured value, with coverage off always; an error exactly for no hours, a lost reply or a key of the wrong type; a garbled reply of the wrong length is an error |
| Reads.ValidateAggregateAccessKeys | internal/tierer/config.go:224-237 | accepts exactly positive sizes whose key count in unbounded integers is within the limit |
| Reads.AllReadChunk | internal/tierer/redis.go:147-165 | all keys of the chunk can be read exactly if every object's two windows can |
| Reads.FlattenKeys | internal/tierer/redis.go:147-158 | the flattened key list is object by object, low hours before high hours |
| Reads.OffsetOfObject | internal/tierer/redis.go:168-183 | where each object's windows lie in the flattened reply |
| Reads.SplitReply | internal/tierer/redis.go:167-181 | slicing by the running offset gives every object its own two windows |
| Reads.ReadChunk | internal/tierer/redis.go:140-186 | the same counts as ReadCounts per object and window; if the counter reply is the script's and the coverage reply not garbled it succeeds exactly if those all would, within the limit and with coverage readable |
| Evaluator.SumCounts | internal/tierer/evaluator.go:60-72 | fails exactly for a negative count or a true total beyond int64, otherwise exact |
| Evaluator.Evaluate | internal/tierer/evaluator.go:32-58 | low means full coverage, an object as old as the window and a true sum below the threshold; high means a true sum above; errors exact |
| Evaluator.DecideAction | internal/tierer/evaluator.go:93-107 | marks exactly untransitioned low objects, renews exactly readable ones, restores exactly those neither readable nor being restored |
| Minio.PassedOnAscends | internal/tierer/minio.go:69-92 | whatever the source, what passes the filter is a strictly ascending prefix of it |
| Minio.FilterExact | internal/tierer/minio.go:69-92 | the filter is silent exactly on error-free listings that strictly ascend from the start |
| Minio.Objects | internal/tierer/minio.go:59-95 | the stream is the filtered listing, or a prefix of it without an error if cancelled |
| Minio.SameLastModifiedExact | internal/tierer/minio.go:158-163 | two times pass for the same exactly if equal or the second is the first cut to whole seconds |
| Minio.UnquotedExact | internal/tierer/minio.go:151 | trimming takes off all surrounding quotes and nothing else |
| Minio.SameIdentityExact | internal/tierer/minio.go:150-156 | two objects are the same exactly if ETag between its quotes, size and time agree and the version does where the listing has one |
| Minio.PlanMarker | internal/tierer/minio.go:180-197 | a marker is required exactly if it is there with another value, or missing from fewer than ten tags; the plan then sets it and keeps every other tag; reading fails only if the call does |
| Minio.VerifyTags | internal/tierer/minio.go:215-223 | the size and inclusion check as it runs |
| Minio.EmptyValueGoesUnnoticed | internal/tierer/minio.go:219-223 | a planned empty value can be replaced by a foreign tag unnoticed |
| Minio.VerificationExact | internal/tierer/minio.go:215-223 | a passed verification means equal tags if and only if no planned value is empty |
| Minio.ApplyMarker | internal/tierer/minio.go:199-225 | success means the tags read back passed verification, and equal the plan if no value is empty, whoever else wrote |
| Budget.RaiseExact | internal/tierer/redis.go:514-520 | INCRBY and EXPIREAT of a budget with room store the sum and the date |
| Budget.Keyspace.LuaCurrent | internal/tierer/redis.go:465-473 | a budget reads as its counter, zero if missing, nil if malformed |
| Budget.Keyspace.LuaFits | internal/tierer/redis.go:475-513 | the new value is within the limit in unbounded integers, overflow included |
| Budget.Keyspace.RunReserveScript | internal/tierer/redis.go:498-521 | granted exactly if attempts+1 and bytes+delta are within the limits; denied or refused changes nothing and reports the stored usage; a grant writes exactly its charge |
| Budget.Keyspace.Reserve | internal/tierer/redis.go:217-260 | charged at most once and only with room; an allowed answer means charged, with the usage it leaves; a denial means that one more would exceed a limit that is set, with the stored usage; no limits means no Redis call; an answered call fails only over a malformed budget |
| Budget.Keyspace.AskRedis | internal/tierer/redis.go:239-259 | the call with its limits as text, answered truly or failed |
| Budget.GrantReportsWhatItLeaves | internal/tierer/redis.go:514-521 | the usage told with a grant is the stored usage after it, exactly so up to 2^53 |
| Budget.BudgetKeysDiffer | internal/tierer/redis.go:235-237 | no two days, kinds or quantities share a budget key |
| Budget.ExpiryOfDay | internal/tierer/redis.go:238 | a day's budget expires more than two days after any instant of it |
| Budget.ReportedUsageExact | internal/tierer/redis.go:514-521 | reported usage is stored usage exactly for at most 53 significant bits |
| BudgetSafety.TimeKeepsBudgets | internal/tierer/redis.go:238 | no passage of time loses a budget before its deadline |
| BudgetSafety.AccessWritesKeepBudgets | internal/contracts/contracts.go:34-49 | counting accesses leaves every budget alone |
| BudgetSafety.ReservationPaysForOne | internal/tierer/scanner.go:424-449 | a grant pays for one mutation, whether it is then called or not |
| BudgetSafety.DeedKeepsOrder | internal/tierer/scanner.go:406-493 | every reservation, mutation, crash, wait and foreign write keeps the books |
| BudgetSafety.BudgetsHoldOverRuns | internal/tierer/scanner.go:406-493 | over any run the transitions of a day stay within the transition limits and the restores within the restore limits, attempts and bytes, and are covered by the stored usage |
| BudgetSafety.LimitsAreKept | internal/tierer/scanner.go:406-493 | whenever the books are in order, the stored usage of each kind covers its mutations and is within the limits of that kind |
| BudgetSafety.DayOutlived | internal/tierer/redis.go:235-238 | with clocks less than two days apart a budget is not due while it is charged |
| Progress.CursorBeforeTransitive | internal/tierer/redis.go:323-325 | the cursor order is transitive |
| Progress.CursorBeforeExact | internal/tierer/redis.go:323-325 | one cursor is before another exactly if the other has reached all it has and more; any two places are ordered |
| Progress.Excluded | internal/tierer/scanner.go:219-231 | true exactly for listed buckets and buckets that begin with a listed prefix |
| Progress.CursorStore.LoadCursor | internal/tierer/redis.go:355-380 | the durable cursor, or a failed call |
| Progress.CursorStore.SaveCursor | internal/tierer/redis.go:337-353 | the cursor moves forward or not at all, an answered save has moved it, and a save fails only if its call does or the cursor lacks a name or its time |
| Progress.CursorStore.ResetCursor | internal/tierer/redis.go:382-391 | the cursor is gone or untouched, and a trusted traversal that ends has covered everything |
| Traversal.SortedBuckets | internal/tierer/scanner.go:181 | every bucket once, in ascending order |
| Traversal.SortedSourcePasses | internal/tierer/minio.go:69-92 | of a sorted listing everything that arrives is passed on |
| Traversal.SourceFlawed | internal/tierer/minio.go:69-92 | an error of the filter means that the listing failed, was cut short or is not sorted |
| Traversal.NothingBetween | internal/tierer/scanner.go:233-284 | between neighbours of a sorted listing there is no object of interest |
| Traversal.FrontierAdvances | internal/tierer/scanner.go:262-281 | reading one more object leaves nothing of interest behind that is not covered or in the chunk |
| Traversal.EndOfListing | internal/tierer/scanner.go:255-260 | a listing that ends without an error leaves nothing of interest in the bucket |
| Traversal.NextBucket | internal/tierer/scanner.go:182-192 | everything before the place where a bucket's scan starts is covered |
| Traversal.NextPosition | internal/tierer/scanner.go:182-192 | the cursor never stands past that place |
| Traversal.UnsortedListingLosesObject | internal/tierer/minio.go:78-85 | without the order assumption an object can be lost for the rest of a traversal |
| Decisions.WindowsInRange | internal/tierer/scanner.go:309-319 | an accepted configuration gives windows of exactly the configured hours before the chunk's hour |
| Decisions.CallMeans | internal/tierer/scanner.go:366-493 | a mark is called on an untransitioned object as old as the low window, every hour of which held the configured coverage value and whose counters summed below the threshold; a restore or renewal on a transitioned one above the other; the counters are those Redis held when asked |
| Decisions.OneMoreHandled | internal/tierer/scanner.go:347-404 | handling one more object as its listing, its verdict and what MinIO and Redis answered call for keeps the whole record so |
| Decisions.ObjectStore.Stat | internal/tierer/scanner.go:372-379 | the lookup is logged with its answer, and fails only if the call does |
| Decisions.ObjectStore.Plan | internal/tierer/scanner.go:407-415 | the tags read are logged; a marker is required exactly if it differs or is missing from fewer than ten tags |
| Decisions.ObjectStore.Tag | internal/tierer/scanner.go:439-441 | the call and the tags written are recorded; success means the tags read back passed verification |
| Decisions.ObjectStore.Bring | internal/tierer/scanner.go:478-481 | the call is recorded; nothing is requested for no days |
| Scanner.Scanner.Reserve | internal/tierer/scanner.go:424-430 | an allowed reservation pays for the mutation that follows it; the limits asked with are those of its kind, a denial is true of the stored budget, and after cancellation a kind with limits gets no grant |
| Scanner.Scanner.HandleMarker | internal/tierer/scanner.go:406-451 | the tags are read; exactly where the marker is due, in apply mode, a reservation of the size is asked for, and exactly after a grant the tags read are written with the marker |
| Scanner.Scanner.HandleRestore | internal/tierer/scanner.go:453-493 | exactly in apply mode a reservation is asked for, of no bytes for a renewal, and exactly after a grant the restore is requested |
| Scanner.Scanner.Act | internal/tierer/scanner.go:366-404 | nothing is asked about an object whose listing shows nothing due; any other is looked up, left alone if that fails or it has changed, and marked, restored or renewed as its present state calls for |
| Scanner.Scanner.HandleObject | internal/tierer/scanner.go:366-404 | one more object is on record with all that was asked about it, as its verdict calls for; it fails exactly if its reservation does |
| Scanner.Scanner.ReadUsage | internal/tierer/scanner.go:321-330 | the counters of all objects as Redis holds them now and the coverage a little later, unless a reply was garbled; with honest replies it succeeds exactly if everything can be read |
| Scanner.Scanner.Judge | internal/tierer/scanner.go:333-345 | every object gets the verdict its own usage calls for; none only after cancellation or if some usage cannot be judged |
| Scanner.Scanner.HandleAll | internal/tierer/scanner.go:347-351 | the objects of a chunk are put on record one after the other, all of them if it succeeds; it fails only over a cancelled or lost call or a failed reservation |
| Scanner.Scanner.JudgeChunk | internal/tierer/scanner.go:321-345 | verdicts on all objects of a chunk with their evidence, or a reason: cancelled, a call not answered, a counter or coverage key that cannot be read, a sum beyond int64, an invalid policy |
| Scanner.Scanner.ProcessChunk | internal/tierer/scanner.go:309-364 | either the cursor and what is covered stay as they were, or every object was handled, the cursor is on the last one and the chunk covered; success means the latter, giving up has a reason outside the scanner |
| Scanner.Scanner.Accept | internal/tierer/scanner.go:269-280 | an empty object whose name ends in a slash never joins a chunk; any other does, and a full chunk is processed |
| Scanner.Scanner.ScanBucket | internal/tierer/scanner.go:233-284 | a bucket scanned to its end has every object of interest covered, directories being those of no bytes and a final slash; otherwise the scan was cancelled, let down, stopped by what it read, or the listing is flawed |
| Scanner.Scanner.Validate | internal/tierer/scanner.go:206-217 | accepts exactly positive sizes within the key limit, complete settings and, in apply mode, no negative budget |
| Scanner.Scanner.VisitBucket | internal/tierer/scanner.go:182-193 | a bucket that is excluded or before the cursor is skipped with nothing touched; any other is scanned from the cursor on |
| Scanner.Scanner.Finish | internal/tierer/scanner.go:195-203 | the cursor is reset only after all buckets, recording what was covered; otherwise the traversal goes on as it was |
| Scanner.Scanner.ScanOnce | internal/tierer/scanner.go:149-204 | a scan gives up only if cancelled, if a call was not answered, over unreadable or overflowing counters, bad settings or a flawed listing; it ends a traversal at most once, and then over faithful listings every object that was there all through, in a bucket not excluded, was handled; otherwise the cursor only moved forward and keeps what is covered; no day's mutations exceed the limits of their kind; at most one chunk is handled beyond the cursor; audit mode is silent |
| Scanner.Scanner.RunScans | internal/tierer/scanner.go:126-147 | over any sequence of scans: each finished traversal is trusted exactly if the listings of all its scans deserve it, and then everything that was there all through was handled; limits hold on every day; without an end the cursor only moved forward |
| Scanner.OneMoreEnd | internal/tierer/scanner.go:126-147 | the scan that ends a traversal settles its trust and starts the next one afresh |
| LowDecision.TotalIsAccesses | internal/updater/http.go:61-73 | the applied total of an object's key is its number of applied accesses of that hour |
| LowDecision.KeyHasOneDeadline | internal/contracts/contracts.go:87-89 | all increments of one hour's counter carry the same expiry |
| LowDecision.PlayKeepsDate | internal/redisstore/store.go:206-210 | in every run, over any counters updaters left, a counter carries its hour's deadline and is gone only after it |
| LowDecision.CounterIsGone | internal/contracts/contracts.go:87-89 | a counter is gone one retention after its hour has ended, and while its key is stored not before |
| LowDecision.CounterIsAccesses | internal/tierer/redis.go:68-101 | up to the end of the hour after the evaluation hour the counter of each window hour is what it held plus the applied accesses |
| LowDecision.RunsAddUp | internal/redisstore/store.go:206-210 | a run over what another left adds its own accesses to the other's |
| LowDecision.WindowCountsAreAccesses | internal/tierer/redis.go:140-186 | so is every count the tierer reads |
| LowDecision.SumIsAppliedAccesses | internal/tierer/evaluator.go:60-72 | the sum compared is what the window's counters held plus the applied accesses that arrived in it |
| LowDecision.AcknowledgedAreApplied | internal/updater/batcher.go:128-133 | no acknowledged access, of any process, is missing from the applied ones |
| LowDecision.ReadAndJudge | internal/tierer/scanner.go:309-339 | low exactly if every hour's coverage key holds the configured value, the object is old enough and its window total below the threshold; high exactly if its total over the high window is above the other; a verdict exactly if coverage is readable and both totals are int64 |
| LowDecision.LowMeansFewAcknowledged | internal/tierer/evaluator.go:32-58 | a low verdict is never reached with the threshold's worth of acknowledged accesses |

## Left out

- AckTiming.AcknowledgedInTime: time passes only inside Apply, up to its deadline, and in a select on an empty queue; scheduling and lock waiting count as instantaneous.
- AckBudget.BoundIsReached: for limits of one event or one key, and for limits that hold two requests, the bound is shown to suffice, not to be reached.
- AckBudget.BudgetCoversEveryRun: a request of MaxRecords records is taken to fit into MaxBodyBytes; where it does not, MaxRecords stands for the number of records that do.
- Ledger: a key whose written expiry has already passed leaves the accounting, as does one whose expiry comes while it is stored; nothing is said about the values of counters after a batch that is not exact.
- Batcher.Worker.Drain: sequential, since after Stop nobody else reaches the queue; the run loop before Stop is in Protocol only.
- LowDecision.ReadAndJudge: one object instead of a chunk, at one instant between updater events; counters found at the start carry the deadline of this retention; the window must start in year 1 or later; Redis' clock must not be past the hour after the evaluation hour.
- Budget.Keyspace.Reserve: assumes a tierer clock between 1970 and 9999; usage that comes back outside int64 is an arbitrary number.
- BudgetSafety.BudgetsHoldOverRuns: assumes that Redis' clock is less than two days ahead of the tierer's and that nobody else writes budget keys; limits stay fixed.
- Scanner.Scanner.ScanOnce: completeness is for sorted, complete listings and for objects present in all of them; clocks are less than a day apart and an operation takes less than a day; a request still on its way after its timeout is dropped; budgets are valid as LoadConfig leaves them.
- Decisions.CallMeans: nothing is said about counters or coverage decoded from a garbled reply; what the object looked like between the second lookup and the call is not known.
- Progress.CursorStore.SaveCursor: the JSON envelope and the hashed scope are not modelled, saving and loading is the identity on one key.
- Reads.ReadChunk: nothing is said about counts decoded from a reply that is not the script's.
- Reads.ReadCoverage: the coverage template is an arbitrary function of the hour; nothing is said about coverage decoded from a garbled reply of the right length.
- Minio.ApplyMarker: the tag library's verdict on a tag set is an arbitrary function; its limits are not modelled.
- Minio.PlanMarker: the object's version only selects the tag set, which is arbitrary, and is not modelled further.
- RedisStore.Store.Apply: error texts become constructors of a datatype; the lock around the cached digest is not modelled.
- Protocol: the observer, the logger and the readiness flag of the batcher.
- Deriving the transition state from storage class and restore headers, Stat's defaults, and S3's restore protocol itself.
- Decoding of request bodies, HTTP routing, metrics, logging, TLS, health checks and process start-up.
- Environment parsing except the numeric relations cited above; coverage template validation by sampling.
- SHA-256 scope hashing beyond the sort of its inputs.
- A Redis that runs out of memory in the middle of a script, replication and failover.
- Concurrent tierer replicas, and third parties that overwrite objects during a scan.
